/** The first-token detector: an incremental scan of a server-sent event stream that does not
    depend on how the stream was cut into writes (latency.go). The event format is the subset of
    section 9.2.6 of WHATWG HTML with LF or CRLF line ends and data fields only. */
module SseDetector {

  type Bytes = seq<bv8>

  const MAX_SSE_BUFFER_BYTES: int := 65536
  const LF: bv8 := 10
  const CR: bv8 := 13
  const SPACE: bv8 := 32
  const DATA: Bytes := [100, 97, 116, 97, 58]  // "data:"

  /** What classifyEvent makes of one event's joined data. */
  datatype Verdict = Token | Error | Control

  datatype State = State(line: Bytes, data: Bytes, hasData: bool, skipLine: bool, skipEvent: bool, sawError: bool)

  const INITIAL := State([], [], false, false, false, false)

  // ---- Lines ----------------------------------------------------------------------

  function TrimCR(line: Bytes): Bytes {
    if line != [] && line[|line| - 1] == CR then line[..|line| - 1] else line
  }

  predicate IsData(line: Bytes) { DATA <= line }

  /** The value of a data line: what follows the colon, less one leading space. */
  function DataValue(line: Bytes): Bytes
    requires IsData(line)
  {
    var value := line[|DATA|..];
    if value != [] && value[0] == SPACE then value[1..] else value
  }

  function ProcessLine(classify: Bytes -> Verdict, s: State, raw: Bytes): (State, bool) {
    var line := TrimCR(raw);
    if line == [] then
      var judged := !s.skipEvent && s.hasData;
      var verdict := if judged then classify(s.data) else Control;
      (s.(data := [], hasData := false, skipEvent := false, sawError := s.sawError || verdict == Error),
       verdict == Token)
    else if !IsData(line) || s.skipEvent then (s, false)
    else
      var value := DataValue(line);
      if |s.data| + |value| >= MAX_SSE_BUFFER_BYTES then
        (s.(data := [], hasData := false, skipEvent := true), false)
      else
        (s.(data := (if s.hasData then s.data + [LF] else s.data) + value, hasData := true), false)
  }

  /** The tail of a chunk, which holds no newline. */
  function BufferPartial(s: State, p: Bytes): State {
    if s.skipLine then s
    else if |s.line| + |p| > MAX_SSE_BUFFER_BYTES then s.(line := [], skipLine := true, skipEvent := true)
    else s.(line := s.line + p)
  }

  /** A newline after the buffered partial line. */
  function EndLine(classify: Bytes -> Verdict, s: State): (State, bool) {
    if s.skipLine then (s.(skipLine := false), false)
    else ProcessLine(classify, s.(line := []), s.line)
  }

  // ---- One byte at a time -----------------------------------------------------------

  function Step(classify: Bytes -> Verdict, s: State, b: bv8): (State, bool) {
    if b == LF then EndLine(classify, s) else (BufferPartial(s, [b]), false)
  }

  /** The scan of a whole chunk and whether any event in it carried a token. */
  function Scan(classify: Bytes -> Verdict, s: State, p: Bytes): (State, bool)
    decreases |p|
  {
    if p == [] then (s, false)
    else
      var (s1, t1) := Step(classify, s, p[0]);
      var (s2, t2) := Scan(classify, s1, p[1..]);
      (s2, t1 || t2)
  }

  /** Feeding a then b is feeding a + b: same state, and the results are or-ed. */
  lemma {:induction false} ScanConcat(classify: Bytes -> Verdict, s: State, a: Bytes, b: Bytes)
    ensures var (s1, t1) := Scan(classify, s, a);
            var (s2, t2) := Scan(classify, s1, b);
            Scan(classify, s, a + b) == (s2, t1 || t2)
    decreases |a|
  {
    if a == [] {
      assert a + b == b;
    } else {
      assert (a + b)[0] == a[0] && (a + b)[1..] == a[1..] + b;
      ScanConcat(classify, Step(classify, s, a[0]).0, a[1..], b);
    }
  }

  // ---- Buffer bounds -------------------------------------------------------------------

  ghost predicate Bounded(s: State) {
    |s.line| <= MAX_SSE_BUFFER_BYTES && |s.data| <= MAX_SSE_BUFFER_BYTES && (s.skipLine ==> s.line == [])
  }

  lemma ProcessLineBounded(classify: Bytes -> Verdict, s: State, raw: Bytes)
    requires Bounded(s)
    ensures Bounded(ProcessLine(classify, s, raw).0)
  {}

  lemma {:induction false} ScanBounded(classify: Bytes -> Verdict, s: State, p: Bytes)
    requires Bounded(s)
    ensures Bounded(Scan(classify, s, p).0)
    decreases |p|
  {
    if p != [] {
      ProcessLineBounded(classify, s.(line := []), s.line);
      ScanBounded(classify, Step(classify, s, p[0]).0, p[1..]);
    }
  }

  /** A segment without newline is buffered as a whole exactly as it is byte by byte. */
  lemma {:induction false} ScanSegment(classify: Bytes -> Verdict, s: State, seg: Bytes)
    requires LF !in seg && Bounded(s)
    ensures Scan(classify, s, seg) == (BufferPartial(s, seg), false)
    decreases |seg|
  {
    if seg == [] {
      assert s.line + [] == s.line;
    } else {
      var s1 := BufferPartial(s, [seg[0]]);
      ScanSegment(classify, s1, seg[1..]);
      assert seg == [seg[0]] + seg[1..];
      assert (s.line + [seg[0]]) + seg[1..] == s.line + seg;
    }
  }

  // ---- The detector object ------------------------------------------------------------------

  class SseTokenDetector {
    var line: Bytes
    var data: Bytes
    var hasData: bool
    var skipLine: bool
    var skipEvent: bool
    var sawError: bool

    ghost function Now(): State
      reads this
    {
      State(line, data, hasData, skipLine, skipEvent, sawError)
    }

    constructor ()
      ensures Now() == INITIAL
    {
      line, data, hasData, skipLine, skipEvent, sawError := [], [], false, false, false, false;
    }

    method Buffer(p: Bytes)
      modifies this
      ensures Now() == BufferPartial(old(Now()), p)
    {
      if skipLine { return; }
      if |line| + |p| > MAX_SSE_BUFFER_BYTES {
        line, skipLine, skipEvent := [], true, true;
        return;
      }
      line := line + p;
    }

    method Process(classify: Bytes -> Verdict, raw: Bytes) returns (token: bool)
      modifies this
      ensures (Now(), token) == ProcessLine(classify, old(Now()), raw)
    {
      var trimmed := TrimCR(raw);
      if trimmed == [] {
        token := false;
        if !skipEvent && hasData {
          var verdict := classify(data);
          token := verdict == Token;
          sawError := sawError || verdict == Error;
        }
        data, hasData, skipEvent := [], false, false;
        return;
      }
      if !IsData(trimmed) { return false; }
      if skipEvent { return false; }
      var value := DataValue(trimmed);
      if |data| + |value| >= MAX_SSE_BUFFER_BYTES {
        data, hasData, skipEvent := [], false, true;
        return false;
      }
      if hasData { data := data + [LF]; }
      data := data + value;
      hasData := true;
      return false;
    }

    /** bytes.IndexByte(p, '\n'). */
    method IndexNewline(p: Bytes) returns (nl: int)
      ensures -1 <= nl < |p|
      ensures nl < 0 ==> LF !in p
      ensures nl >= 0 ==> p[nl] == LF && LF !in p[..nl]
    {
      nl := 0;
      while nl < |p|
        invariant 0 <= nl <= |p| && LF !in p[..nl]
      {
        if p[nl] == LF { return; }
        nl := nl + 1;
      }
      assert p[..|p|] == p;
      nl := -1;
    }

    /** The rest of a line has arrived: join it to the partial line and process the whole. */
    method CompleteLine(classify: Bytes -> Verdict, segment: Bytes) returns (token: bool)
      requires Bounded(Now())
      modifies this
      ensures (Now(), token) == EndLine(classify, BufferPartial(old(Now()), segment))
    {
      if skipLine {
        skipLine := false;
        return false;
      }
      var full := segment;
      if |line| > 0 {
        full := line + segment;
        line := [];
      }
      assert full == old(line) + segment;
      if |full| > MAX_SSE_BUFFER_BYTES {
        skipEvent := true;
        return false;
      }
      token := Process(classify, full);
    }

    /** feed: complete lines are processed, the tail is buffered; the outcome is the byte-by-byte
        scan's, so the cut of the stream into chunks cannot matter. */
    method Feed(classify: Bytes -> Verdict, chunk: Bytes) returns (token: bool)
      requires Bounded(Now())
      modifies this
      ensures Bounded(Now()) && (Now(), token) == Scan(classify, old(Now()), chunk)
    {
      hide Scan, ProcessLine;
      token := false;
      var p := chunk;
      ScanBounded(classify, Now(), chunk);
      while p != []
        invariant Bounded(Now())
        invariant Scan(classify, old(Now()), chunk) ==
                  (Scan(classify, Now(), p).0, token || Scan(classify, Now(), p).1)
        decreases |p|
      {
        ghost var before := Now();
        var nl := IndexNewline(p);
        if nl < 0 {
          ScanSegment(classify, before, p);
          Buffer(p);
          return;
        }
        LineScan(classify, before, p[..nl], p[nl + 1..]);
        assert p == p[..nl] + [LF] + p[nl + 1..];
        var t := CompleteLine(classify, p[..nl]);
        if t { token := true; }
        p := p[nl + 1..];
      }
      ScanNothing(classify, Now());
    }
  }

  lemma ScanNothing(classify: Bytes -> Verdict, s: State)
    ensures Scan(classify, s, []) == (s, false)
  {}

  /** One complete line: buffer the segment, then end the line. */
  lemma LineScan(classify: Bytes -> Verdict, s: State, segment: Bytes, rest: Bytes)
    requires LF !in segment && Bounded(s)
    ensures var (s1, t1) := EndLine(classify, BufferPartial(s, segment));
            var (s2, t2) := Scan(classify, s1, rest);
            Bounded(s1) && Scan(classify, s, segment + [LF] + rest) == (s2, t1 || t2)
  {
    ScanSegment(classify, s, segment);
    ScanConcat(classify, s, segment, [LF] + rest);
    assert segment + ([LF] + rest) == segment + [LF] + rest;
    assert ([LF] + rest)[1..] == rest;
    var b := BufferPartial(s, segment);
    ProcessLineBounded(classify, b.(line := []), b.line);
  }
}
