/** The chat tool loop: what every run keeps about the conversation it replays upstream and about
    the tokens it bills (toolruntime/tool_loop.go, toolruntime/runtime.go). */
module ToolLoop {
  import opened Seqs
  import opened ToolCallDeltas
  import opened ToolCallFinish

  const MAX_TOOL_ITERATIONS: nat := 10

  datatype Message =
    | Other(role: string, content: string)
    | Assistant(text: string, calls: seq<Call>)
    | ToolOutput(callID: string, output: string)
    | FinalInstruction

  datatype Usage = Usage(prompt: int, cached: Option<int>, completion: int, total: int)

  /** An answered turn: its assistant message, absent when the body has no choice, and its usage. */
  datatype Reply = Reply(message: Option<Message>, usage: Option<Usage>)

  datatype Totals = Totals(prompt: int, cached: int, completion: int, total: int)

  datatype Outcome =
    | UpstreamError(billed: Option<Totals>)
    | Answered(message: Option<Message>, billed: Option<Totals>)

  // ---- Usage ------------------------------------------------------------------------

  const NO_TOKENS := Totals(0, 0, 0, 0)

  /** usageAccumulator.Add. */
  function AddUsage(t: Totals, u: Option<Usage>): Totals {
    match u
    case None => t
    case Some(v) =>
      Totals(t.prompt + v.prompt, t.cached + (if v.cached.Some? then v.cached.value else 0),
             t.completion + v.completion, t.total + (if v.total > 0 then v.total else v.prompt + v.completion))
  }

  /** usageAccumulator.Usage: nothing to bill when all counters are zero. */
  function Billed(t: Totals): Option<Totals> {
    if t.prompt == 0 && t.completion == 0 && t.total == 0 then None
    else Some(if t.total == 0 then t.(total := t.prompt + t.completion) else t)
  }

  /** Nothing is billed exactly when every counter but the cached one is zero; what is billed are the
      counters themselves, with the total made up from prompt and completion if none was reported. */
  lemma BilledExactly(t: Totals)
    ensures Billed(t).None? <==> t.prompt == 0 && t.completion == 0 && t.total == 0
    ensures Billed(t).Some? ==>
      var b := Billed(t).value;
      b.prompt == t.prompt && b.cached == t.cached && b.completion == t.completion &&
      (t.total != 0 ==> b.total == t.total) && (t.total == 0 ==> b.total == t.prompt + t.completion)
  {}

  function PromptOf(r: Reply): int { if r.usage.Some? then r.usage.value.prompt else 0 }
  function CompletionOf(r: Reply): int { if r.usage.Some? then r.usage.value.completion else 0 }
  function CachedOf(r: Reply): int {
    if r.usage.Some? && r.usage.value.cached.Some? then r.usage.value.cached.value else 0
  }
  function TotalOf(r: Reply): int {
    if r.usage.None? then 0
    else if r.usage.value.total > 0 then r.usage.value.total
    else r.usage.value.prompt + r.usage.value.completion
  }

  function Sum(f: Reply -> int, replies: seq<Reply>): int {
    if replies == [] then 0 else Sum(f, replies[..|replies| - 1]) + f(replies[|replies| - 1])
  }

  /** The totals of a run are, counter by counter, the sums over its answered turns. */
  function SumUsage(replies: seq<Reply>): Totals {
    Totals(Sum(PromptOf, replies), Sum(CachedOf, replies), Sum(CompletionOf, replies), Sum(TotalOf, replies))
  }

  lemma AddIsSum(replies: seq<Reply>, r: Reply)
    ensures AddUsage(SumUsage(replies), r.usage) == SumUsage(replies + [r])
  {
    assert (replies + [r])[..|replies|] == replies;
  }

  // ---- History ---------------------------------------------------------------------------

  /** sanitizeAssistantToolCallsInMessages: fix repairs one call's argument text. */
  function SanitizeCalls(fix: string -> string, calls: seq<Call>): (r: seq<Call>)
    ensures |r| == |calls|
    ensures forall i :: 0 <= i < |calls| ==> r[i] == calls[i].(arguments := fix(calls[i].arguments))
  {
    if calls == [] then []
    else SanitizeCalls(fix, calls[..|calls| - 1]) +
         [calls[|calls| - 1].(arguments := fix(calls[|calls| - 1].arguments))]
  }

  function SanitizeOne(fix: string -> string, m: Message): Message {
    if m.Assistant? then Assistant(m.text, SanitizeCalls(fix, m.calls)) else m
  }

  function Sanitize(fix: string -> string, ms: seq<Message>): (r: seq<Message>)
    ensures |r| == |ms| && forall i :: 0 <= i < |ms| ==> r[i] == SanitizeOne(fix, ms[i])
  {
    seq(|ms|, i requires 0 <= i < |ms| => SanitizeOne(fix, ms[i]))
  }

  /** Repairing repaired arguments changes nothing: what the repair yields is valid. */
  ghost predicate Settles(fix: string -> string) {
    forall s :: fix(fix(s)) == fix(s)
  }

  /** The repair of one argument text: valid JSON is kept, otherwise a repair that is valid is
      taken, otherwise the empty object. */
  function FixArguments(valid: string -> bool, repair: string -> Option<string>, s: string): string {
    if s == "" || valid(s) then s
    else if repair(s).Some? && valid(repair(s).value) then repair(s).value
    else "{}"
  }

  /** The repair leaves valid text and the empty text alone, and yields valid text otherwise: the repaired
      one if there is one, else the empty object. */
  lemma FixedIsValid(valid: string -> bool, repair: string -> Option<string>, s: string)
    requires valid("{}")
    ensures var r := FixArguments(valid, repair, s);
            (s == "" || valid(s) ==> r == s) && (s != "" ==> valid(r)) &&
            (s != "" && !valid(s) ==> if repair(s).Some? && valid(repair(s).value) then Some(r) == repair(s) else r == "{}")
  {}

  lemma RepairSettles(valid: string -> bool, repair: string -> Option<string>, fix: string -> string)
    requires valid("{}") && forall s :: fix(s) == FixArguments(valid, repair, s)
    ensures Settles(fix)
  {}

  lemma SanitizeTwice(fix: string -> string, a: seq<Message>, b: seq<Message>)
    requires Settles(fix)
    ensures Sanitize(fix, Sanitize(fix, a) + b) == Sanitize(fix, a + b)
  {
    var once, twice := Sanitize(fix, a + b), Sanitize(fix, Sanitize(fix, a) + b);
    forall i | 0 <= i < |once| ensures once[i] == twice[i] {
      if i < |a| && a[i].Assistant? {
        var calls := a[i].calls;
        assert SanitizeCalls(fix, SanitizeCalls(fix, calls)) == SanitizeCalls(fix, calls);
      }
    }
  }

  /** One turn's contribution: the assistant message, then one tool message per call. */
  function Outputs(exec: (nat, nat, Call) -> string, turn: nat, calls: seq<Call>): (r: seq<Message>)
    ensures |r| == |calls|
    ensures forall j :: 0 <= j < |calls| ==> r[j] == ToolOutput(calls[j].id, exec(turn, j, calls[j]))
  {
    if calls == [] then []
    else Outputs(exec, turn, calls[..|calls| - 1]) +
         [ToolOutput(calls[|calls| - 1].id, exec(turn, |calls| - 1, calls[|calls| - 1]))]
  }

  function Block(exec: (nat, nat, Call) -> string, turn: nat, m: Message): seq<Message>
    requires m.Assistant?
  {
    [m] + Outputs(exec, turn, m.calls)
  }

  /** The blocks of the first turns of a run. */
  function Blocks(exec: (nat, nat, Call) -> string, replies: seq<Reply>): seq<Message>
    requires forall r :: r in replies ==> r.message.Some? && r.message.value.Assistant?
  {
    if replies == [] then []
    else
      var last := |replies| - 1;
      Blocks(exec, replies[..last]) + Block(exec, last, replies[last].message.value)
  }

  /** The blocks are the turns' messages, each followed by its outputs, one turn after the other. */
  lemma {:induction false} BlocksAreTurns(exec: (nat, nat, Call) -> string, replies: seq<Reply>)
    requires forall r :: r in replies ==> r.message.Some? && r.message.value.Assistant?
    ensures Blocks(exec, replies) == Concat(seq(|replies|, i requires 0 <= i < |replies| =>
              assert replies[i] in replies; [replies[i].message.value] + Outputs(exec, i, replies[i].message.value.calls)))
  {
    if replies != [] {
      var last := |replies| - 1;
      var turn := i requires 0 <= i < |replies| =>
        assert replies[i] in replies; [replies[i].message.value] + Outputs(exec, i, replies[i].message.value.calls);
      BlocksAreTurns(exec, replies[..last]);
      var all, init := seq(|replies|, turn), seq(last, turn);
      assert all == init + [turn(last)];
      ConcatAppend(init, turn(last));
      var short := replies[..last];
      var some := seq(|short|, i requires 0 <= i < |short| =>
        assert short[i] in short; [short[i].message.value] + Outputs(exec, i, short[i].message.value.calls));
      assert some == init;
    }
  }

  /** The calls parsed from a reply. */
  function ReplyCalls(r: Reply): seq<Call> {
    if r.message.Some? && r.message.value.Assistant? then r.message.value.calls else []
  }

  /** A turn the loop goes on from: it asked for router-owned tools and nothing else. */
  ghost predicate RouterTurn(owned: set<string>, r: Reply) {
    r.message.Some? && r.message.value.Assistant? && ReplyCalls(r) != [] &&
    forall c :: c in ReplyCalls(r) ==> c.name in owned
  }

  ghost predicate RouterTurns(owned: set<string>, replies: seq<Reply>) {
    forall r :: r in replies ==> RouterTurn(owned, r)
  }

  /** The body of the request sent at turn i, given the turns before it. */
  function Request(fix: string -> string, exec: (nat, nat, Call) -> string, initial: seq<Message>, replies: seq<Reply>)
    : seq<Message>
    requires forall r :: r in replies ==> r.message.Some? && r.message.value.Assistant?
  {
    if |replies| < MAX_TOOL_ITERATIONS then Sanitize(fix, initial + Blocks(exec, replies))
    else
      var last := |replies| - 1;
      Sanitize(fix, initial + Blocks(exec, replies[..last])) +
      Block(exec, last, replies[last].message.value) + [FinalInstruction]
  }

  /** Up to the tenth, a request is the sanitized initial history followed by the sanitized blocks of
      the turns before it. */
  lemma RequestReplays(fix: string -> string, exec: (nat, nat, Call) -> string, initial: seq<Message>, replies: seq<Reply>)
    requires |replies| < 10 && forall r :: r in replies ==> r.message.Some? && r.message.value.Assistant?
    ensures Request(fix, exec, initial, replies) == Sanitize(fix, initial) + Sanitize(fix, Blocks(exec, replies))
  {
    hide Blocks, Sanitize, Block;
    SanitizeSplits(fix, initial, Blocks(exec, replies));
  }

  /** After ten turns the last block goes out as received, with the final instruction behind it. */
  lemma FinalRequestReplays(fix: string -> string, exec: (nat, nat, Call) -> string, initial: seq<Message>, replies: seq<Reply>)
    requires |replies| == 10 && forall r :: r in replies ==> r.message.Some? && r.message.value.Assistant?
    ensures Request(fix, exec, initial, replies) ==
            Sanitize(fix, initial) + Sanitize(fix, Blocks(exec, replies[..9])) + Block(exec, 9, replies[9].message.value) + [FinalInstruction]
  {
    hide Blocks, Sanitize, Block;
    SanitizeSplits(fix, initial, Blocks(exec, replies[..9]));
  }

  lemma SanitizeSplits(fix: string -> string, a: seq<Message>, b: seq<Message>)
    ensures Sanitize(fix, a + b) == Sanitize(fix, a) + Sanitize(fix, b)
  {}

  /** A request made after the turns `before`: they were all router turns, and it replays them. */
  ghost predicate SentAfter(owned: set<string>, fix: string -> string, exec: (nat, nat, Call) -> string,
                            initial: seq<Message>, request: seq<Message>, before: seq<Reply>)
  {
    RouterTurns(owned, before) && request == Request(fix, exec, initial, before)
  }

  /** Every request of the run is the initial history followed by the blocks of the turns so far. */
  ghost predicate RunOk(owned: set<string>, fix: string -> string, exec: (nat, nat, Call) -> string,
                        upstream: (nat, seq<Message>) -> Option<Reply>, initial: seq<Message>,
                        requests: seq<seq<Message>>, replies: seq<Reply>)
  {
    |replies| <= |requests| <= MAX_TOOL_ITERATIONS + 1 && |requests| <= |replies| + 1 &&
    (forall i :: 0 <= i < |replies| ==> upstream(i, requests[i]) == Some(replies[i])) &&
    (forall i :: 0 <= i < |requests| ==> SentAfter(owned, fix, exec, initial, requests[i], replies[..i]))
  }

  /** In particular each block of the replayed history has exactly one answer per call, in order. */
  lemma BlockAnswersEachCall(exec: (nat, nat, Call) -> string, turn: nat, m: Message)
    requires m.Assistant?
    ensures var b := Block(exec, turn, m);
            |b| == 1 + |m.calls| && b[0] == m &&
            forall j :: 0 <= j < |m.calls| ==> b[j + 1].ToolOutput? && b[j + 1].callID == m.calls[j].id
  {}

  // ---- The loop ------------------------------------------------------------------------------

  /** The history a turn starts from: earlier blocks sanitized, the latest one as received. */
  ghost function Carried(fix: string -> string, exec: (nat, nat, Call) -> string, initial: seq<Message>, replies: seq<Reply>)
    : seq<Message>
    requires forall r :: r in replies ==> r.message.Some? && r.message.value.Assistant?
  {
    if replies == [] then initial
    else
      var last := |replies| - 1;
      Sanitize(fix, initial + Blocks(exec, replies[..last])) + Block(exec, last, replies[last].message.value)
  }

  lemma CarriedSanitizes(fix: string -> string, exec: (nat, nat, Call) -> string, initial: seq<Message>, replies: seq<Reply>)
    requires Settles(fix)
    requires forall r :: r in replies ==> r.message.Some? && r.message.value.Assistant?
    ensures Sanitize(fix, Carried(fix, exec, initial, replies)) == Sanitize(fix, initial + Blocks(exec, replies))
  {
    hide Block, Settles;
    if replies == [] {
      assert initial + [] == initial;
    } else {
      var last := |replies| - 1;
      var before, block := Blocks(exec, replies[..last]), Block(exec, last, replies[last].message.value);
      SanitizeTwice(fix, initial + before, block);
      Regrouped(initial, before, block);
    }
  }

  lemma Regrouped(a: seq<Message>, b: seq<Message>, c: seq<Message>)
    ensures (a + b) + c == a + (b + c)
  {}

  /** The next request of a run whose turns were all router turns. */
  lemma RunSends(owned: set<string>, fix: string -> string, exec: (nat, nat, Call) -> string,
                 upstream: (nat, seq<Message>) -> Option<Reply>, initial: seq<Message>,
                 requests: seq<seq<Message>>, replies: seq<Reply>, request: seq<Message>)
    requires RunOk(owned, fix, exec, upstream, initial, requests, replies) && |requests| == |replies|
    requires |requests| <= MAX_TOOL_ITERATIONS && SentAfter(owned, fix, exec, initial, request, replies)
    ensures RunOk(owned, fix, exec, upstream, initial, requests + [request], replies)
  {
    hide SentAfter;
    var requests' := requests + [request];
    forall i | 0 <= i < |requests'| ensures SentAfter(owned, fix, exec, initial, requests'[i], replies[..i]) {
      if i == |replies| { assert replies[..i] == replies; }
    }
  }

  /** The reply to the latest request. */
  lemma RunAnswers(owned: set<string>, fix: string -> string, exec: (nat, nat, Call) -> string,
                   upstream: (nat, seq<Message>) -> Option<Reply>, initial: seq<Message>,
                   requests: seq<seq<Message>>, replies: seq<Reply>, reply: Reply)
    requires RunOk(owned, fix, exec, upstream, initial, requests, replies) && |requests| == |replies| + 1
    requires upstream(|replies|, requests[|replies|]) == Some(reply)
    ensures RunOk(owned, fix, exec, upstream, initial, requests, replies + [reply])
  {
    hide SentAfter;
    var replies' := replies + [reply];
    forall i | 0 <= i < |requests| ensures SentAfter(owned, fix, exec, initial, requests[i], replies'[..i]) {
      assert replies'[..i] == replies[..i];
    }
  }

  method ExecuteCalls(exec: (nat, nat, Call) -> string, turn: nat, calls: seq<Call>) returns (outputs: seq<Message>)
    ensures outputs == Outputs(exec, turn, calls)
  {
    outputs := [];
    for j := 0 to |calls|
      invariant outputs == Outputs(exec, turn, calls[..j])
    {
      assert calls[..j + 1][..j] == calls[..j];
      outputs := outputs + [ToolOutput(calls[j].id, exec(turn, j, calls[j]))];
    }
    assert calls[..|calls|] == calls;
  }

  lemma AllRouter(owned: set<string>, calls: seq<Call>)
    requires ClientCalls(owned, calls) == []
    ensures RouterCalls(owned, calls) == calls && forall c :: c in calls ==> c.name in owned
  {
    forall c | c in calls ensures Mine(owned, c) {
      FilterMember((x: Call) => !Mine(owned, x), calls, c);
    }
    FilterAll((c: Call) => Mine(owned, c), calls);
  }

  /** What the client sees of the last reply: the router's own calls are taken out of a mixed turn,
      unless it is the forced final one. */
  function Surfaced(owned: set<string>, r: Reply, requests: nat): Option<Message> {
    if requests > MAX_TOOL_ITERATIONS || RouterCalls(owned, ReplyCalls(r)) == [] then r.message
    else Some(Assistant(r.message.value.text, ClientCalls(owned, ReplyCalls(r))))
  }

  /** The client sees the last message itself, or that message with just its own calls, in order. */
  lemma SurfacedKeepsMessage(owned: set<string>, r: Reply, requests: nat)
    requires ReplyCalls(r) != []
    ensures var shown := Surfaced(owned, r, requests);
            shown == r.message ||
            (shown.Some? && shown.value.Assistant? && shown.value.text == r.message.value.text &&
             shown.value.calls == Filter((c: Call) => c.name !in owned, r.message.value.calls))
  {
    FilterSame(owned, ReplyCalls(r));
  }

  lemma {:induction false} FilterSame(owned: set<string>, calls: seq<Call>)
    ensures ClientCalls(owned, calls) == Filter((c: Call) => c.name !in owned, calls)
  {
    if calls != [] { FilterSame(owned, calls[1..]); }
  }

  lemma NotRouterTurn(owned: set<string>, r: Reply)
    ensures RouterCalls(owned, ReplyCalls(r)) == [] || ClientCalls(owned, ReplyCalls(r)) != [] ==> !RouterTurn(owned, r)
  {
    forall c | c in ReplyCalls(r)
      ensures c.name in owned ==> c in RouterCalls(owned, ReplyCalls(r))
    {
      FilterMember((x: Call) => Mine(owned, x), ReplyCalls(r), c);
    }
    if ClientCalls(owned, ReplyCalls(r)) != [] {
      var c := ClientCalls(owned, ReplyCalls(r))[0];
      FilterMember((x: Call) => !Mine(owned, x), ReplyCalls(r), c);
    }
    assert ReplyCalls(r) != [] ==> ReplyCalls(r)[0] in ReplyCalls(r);
  }

  /** runToolLoop on the chat surface. upstream answers the turn's request or fails; exec runs the
      router-owned call at one position of a turn. */
  method RunToolLoop(owned: set<string>, fix: string -> string, exec: (nat, nat, Call) -> string,
                     upstream: (nat, seq<Message>) -> Option<Reply>, initial: seq<Message>)
    returns (outcome: Outcome, requests: seq<seq<Message>>, replies: seq<Reply>)
    requires Settles(fix)
    ensures RunOk(owned, fix, exec, upstream, initial, requests, replies) && 1 <= |requests| <= 11
    ensures outcome.billed == Billed(SumUsage(replies))
    ensures outcome.UpstreamError? <==> |replies| < |requests|
    ensures outcome.UpstreamError? ==> upstream(|replies|, requests[|replies|]) == None
    ensures outcome.Answered? ==> outcome.message == Surfaced(owned, replies[|replies| - 1], |requests|)
    ensures outcome.Answered? && |requests| <= MAX_TOOL_ITERATIONS ==> !RouterTurn(owned, replies[|replies| - 1])
  {
    hide Request, Blocks, Sanitize, Settles, RunOk, SumUsage, Billed, AddUsage, Carried, RouterCalls, ClientCalls;
    requests, replies := [], [];
    var messages := initial;
    var totals := NO_TOKENS;
    RunStarts(owned, fix, exec, upstream, initial);
    var i := 0;
    while i < MAX_TOOL_ITERATIONS
      invariant 0 <= i <= MAX_TOOL_ITERATIONS && |requests| == |replies| == i
      invariant RunOk(owned, fix, exec, upstream, initial, requests, replies) && RouterTurns(owned, replies)
      invariant messages == Carried(fix, exec, initial, replies) && totals == SumUsage(replies)
    {
      CarriedSanitizes(fix, exec, initial, replies);
      RequestIs(fix, exec, initial, replies);
      messages := Sanitize(fix, messages);
      RunSends(owned, fix, exec, upstream, initial, requests, replies, messages);
      requests := requests + [messages];
      var answer := upstream(i, messages);
      if answer.None? { return UpstreamError(Billed(totals)), requests, replies; }
      var reply := answer.value;
      RunAnswers(owned, fix, exec, upstream, initial, requests, replies, reply);
      AddIsSum(replies, reply);
      totals := AddUsage(totals, reply.usage);
      CarriedNext(fix, exec, initial, replies, reply);
      replies := replies + [reply];
      NotRouterTurn(owned, reply);
      var router, client := SplitToolCalls(owned, ReplyCalls(reply));
      if router == [] { return Answered(reply.message, Billed(totals)), requests, replies; }
      HasMessage(owned, reply);
      var message := reply.message.value;
      var outputs := ExecuteCalls(exec, i, router);
      if client != [] {
        return Answered(Some(Assistant(message.text, client)), Billed(totals)), requests, replies;
      }
      AllRouter(owned, ReplyCalls(reply));
      messages := messages + ([message] + outputs);
      i := i + 1;
    }
    RequestIs(fix, exec, initial, replies);
    messages := messages + [FinalInstruction];
    RunSends(owned, fix, exec, upstream, initial, requests, replies, messages);
    requests := requests + [messages];
    var answer := upstream(i, messages);
    if answer.None? { return UpstreamError(Billed(totals)), requests, replies; }
    RunAnswers(owned, fix, exec, upstream, initial, requests, replies, answer.value);
    AddIsSum(replies, answer.value);
    totals := AddUsage(totals, answer.value.usage);
    replies := replies + [answer.value];
    outcome := Answered(answer.value.message, Billed(totals));
  }

  lemma HasMessage(owned: set<string>, r: Reply)
    requires RouterCalls(owned, ReplyCalls(r)) != []
    ensures r.message.Some? && r.message.value.Assistant? && ReplyCalls(r) != []
  {}

  lemma RunStarts(owned: set<string>, fix: string -> string, exec: (nat, nat, Call) -> string,
                  upstream: (nat, seq<Message>) -> Option<Reply>, initial: seq<Message>)
    ensures RunOk(owned, fix, exec, upstream, initial, [], [])
    ensures Carried(fix, exec, initial, []) == initial && SumUsage([]) == NO_TOKENS
  {}

  lemma RequestIs(fix: string -> string, exec: (nat, nat, Call) -> string, initial: seq<Message>, replies: seq<Reply>)
    requires |replies| <= MAX_TOOL_ITERATIONS
    requires forall r :: r in replies ==> r.message.Some? && r.message.value.Assistant?
    ensures |replies| < MAX_TOOL_ITERATIONS ==>
      Request(fix, exec, initial, replies) == Sanitize(fix, initial + Blocks(exec, replies))
    ensures |replies| == MAX_TOOL_ITERATIONS ==>
      Request(fix, exec, initial, replies) == Carried(fix, exec, initial, replies) + [FinalInstruction]
  {}

  lemma CarriedNext(fix: string -> string, exec: (nat, nat, Call) -> string, initial: seq<Message>, replies: seq<Reply>,
                    reply: Reply)
    requires forall r :: r in replies ==> r.message.Some? && r.message.value.Assistant?
    ensures reply.message.Some? && reply.message.value.Assistant? ==>
      (forall r :: r in replies + [reply] ==> r.message.Some? && r.message.value.Assistant?) &&
      Carried(fix, exec, initial, replies + [reply]) ==
      Sanitize(fix, initial + Blocks(exec, replies)) + Block(exec, |replies|, reply.message.value)
  {
    assert (replies + [reply])[..|replies|] == replies;
  }
}
