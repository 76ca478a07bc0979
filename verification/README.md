# Verified model of an LLM router

A Dafny model of the in-memory state machines of an inference router. The router keeps bounded,
incremental state (a routing table with expiry, streaming parsers, an admission cache, tool-call
forwarders, load flags and breakers) that is meant to behave like something much simpler and
unbounded. Each part of the model states that simpler thing on its own and proves, for every run or
every input, that the code agrees with it; where a promise fails, the exact condition under which it
holds is proved.

`dafny verify dfyconfig.toml` checks the project.

| part | files | simple meaning |
|---|---|---|
| cache-aware routing | Hrw, Decision, ShadowTable, ShadowLog, Shadow | the complete log of past landings |
| streaming citations | CitationLink, CitationStream, CitationEmitter | one pass over the whole text |
| first-token detection | SseDetector, SseStream | lines, events, joined data |
| admission cache | RouteCache, RouteRefresh | the latest-started answer ever offered |
| tool calls | ToolCallDeltas, ToolCallDelivery, ToolCallFinish, ToolCallMatch, ToolCallTurn, ToolLoop | each call's own deltas; one block per turn |
| replica selection | Breaker, Metrics, Selection, Reservations, ReplicaPool | the history of events; the first non-empty bucket |
| routing keys and salts | Framing, Flatten | the unbounded list of fields and leaves |

`Seqs` holds shared sequence lemmas. Objects whose fields the router updates in place are classes whose
methods are proved against functions on values; the theorems are about those functions and about runs
of them. Ghost fields record histories (all calls, all emitted text, all touches) and take no part in
the computation.

Promises that hold only under a condition, with the condition proved exact:

- Chunking of streamed text never shows if and only if no link spans more than 4097 runes, one more
  than the link buffer, since the rune that completes a link is not held back
  (`CitationStream.ChunkingExactly`).
- A tool call is delivered to the client exactly once unless its name moves it from a client tool to a
  router tool, or calls cannot be told apart by id or name (`ToolCallTurn.DeliveredExactly` and the
  lemmas beside it). The reverse move is made good at the end of the turn, except in the forced final
  turn (`ToolCallTurn.ForcedFinalDelivered`).
- Sweeping the routing table is invisible if and only if a retention is at least 30 s
  (`ShadowLog.InvisibleExactly`); every retention that can be configured is
  (`ShadowLog.ConfiguredRetentionsAreInvisible`).
- `SelectRetry` by itself returns only safe enclaves if and only if it is given a failed host
  (`Selection.SafeHostExactly`); its one caller, main.go:1110, always names one.

## Model

| member | source | states |
|---|---|---|
| `Hrw.RankSorts` | cacheroute/hrw.go:32-53 | For distinct hosts the ranking is a permutation of the candidates in strictly descending score, ties broken by host name. |
| `Hrw.RankingIsUnique` | cacheroute/hrw.go:32-53 | A host set has at most one arrangement in comparator order, so the result does not depend on the sorting algorithm. |
| `Hrw.RankIgnoresOrderAndLoad` | cacheroute/hrw.go:27-53 | Two candidate lists over the same host set rank alike, whatever their order and their in-flight counts. |
| `Hrw.RemovalKeepsRelativeOrder` | cacheroute/hrw.go:27-53 | Removing a host leaves the ranking of all others as it was. |
| `Hrw.TopSetChangesIffMember` | cacheroute/hrw.go:27-53 | The first r hosts of a ranking survive a removal unchanged if and only if the removed host was not among them. |
| `Hrw.RankCandidates` | cacheroute/hrw.go:32-53 | The pass that fills the score table followed by the sort of the clone returns that ranking. |
| `Hrw.ReplicationFactor` | cacheroute/hrw.go:55-69 | The factor is at least 1 and never more than a non-empty pool. |
| `Hrw.ReplicationFactorIsLeast` | cacheroute/hrw.go:55-69 | It is the least warm-set size that absorbs the rate at the threshold, or the whole pool. |
| `Hrw.LeastLoadedIndex` | cacheroute/hrw.go:71-81 | The chosen candidate has minimal load and every earlier one has strictly more. |
| `Hrw.PickLeastLoaded` | cacheroute/hrw.go:71-81 | The running-best loop returns the earliest least-loaded candidate. |
| `Hrw.MinInFlight` | cacheroute/hrw.go:83-92 | The loop returns the load of the least-loaded candidate. |
| `Hrw.ComputeCappedPick` | cacheroute/hrw.go:94-118 | The single pass over eligible warm candidates equals: least loaded of the first r if within pool minimum plus delta, else least loaded overall and demoted; a negative delta disables the cap. |
| `Hrw.CappedPickIs` | cacheroute/hrw.go:94-118 | Demoted exactly if the cap is on and each of the first r hosts has over delta requests more in flight than some host; otherwise a least loaded one of the first r, and if demoted one of all. |
| `Hrw.OverCapMeans` | cacheroute/hrw.go:94-118 | Over the cap means over delta requests more in flight than some host of the pool. |
| `Decision.ComputeOrder` | cacheroute/shadow.go:175-205 | The loops that build the order produce the pick, the other within-cap hosts, then the over-cap ones. |
| `Decision.PickWithinCap` | cacheroute/shadow.go:175-205 | The pick is a candidate that is not over the cap. |
| `Decision.OrderPrefersPickThenCap` | cacheroute/shadow.go:175-205 | For every pool of distinct hosts the order starts with the pick, lists every candidate exactly once, ends with exactly the over-cap hosts, and keeps the ranking inside both parts. |
| `ShadowTable.DecrementOk` | cacheroute/shadow.go:400-416 | Removing an entry and decrementing its group keeps the aggregate equal to a full recount without zero rows. |
| `ShadowTable.IncrementOk` | cacheroute/shadow.go:400-416 | Adding an entry and incrementing its group keeps that recount. |
| `ShadowTable.ShiftOk` | cacheroute/shadow.go:400-416 | Moving an entry between groups keeps that recount. |
| `ShadowTable.DetachOk` | cacheroute/shadow.go:418-440 | Taking an entry off its list keeps every other entry in exactly one existing list, the one of its retention. |
| `ShadowTable.DetachSorted` | cacheroute/shadow.go:418-440 | It keeps the lists sorted by last sighting. |
| `ShadowTable.PushFrontOk` | cacheroute/shadow.go:418-440 | Putting an entry at the front of its retention list keeps one list per entry, also when the list is new. |
| `ShadowTable.PushFrontSorted` | cacheroute/shadow.go:418-440 | It keeps the lists sorted if no sighting is later than the new one. |
| `ShadowTable.RecordOk` | cacheroute/shadow.go:376-395 | Touching or migrating an entry and recounting keeps the shape of the table at any time, and its order if no sighting is later. |
| `ShadowTable.EvictOk` | cacheroute/shadow.go:471-479 | An eviction keeps shape and order and removes exactly one entry. |
| `ShadowTable.LastIsOldest` | cacheroute/shadow.go:442-460 | The back of a list holds its least recent sighting. |
| `ShadowTable.VictimIsOldest` | cacheroute/shadow.go:442-460 | The capacity victim has the least last sighting of the whole table, across all lists. |
| `ShadowTable.ObserveOk` | cacheroute/shadow.go:340-398 | Every observation, retention migration and capacity eviction, read at any time, keeps the shape: one list per entry, exact recount without zero rows, size within capacity. One not earlier than the sightings before it keeps the lists sorted as well. |
| `ShadowTable.ObservePlaces` | cacheroute/shadow.go:340-398 | The key is homed where its request was routed, or else on the candidate whose hash with the key is greatest; factor and pick are reported accordingly, and only hosts seen within the retention stay warm. |
| `ShadowTable.EvictsOnlyWhenFull` | cacheroute/shadow.go:444-452 | An entry is evicted for capacity exactly if the key is new and the table is full. |
| `ShadowTable.BackExpiresFirst` | cacheroute/shadow.go:531-561 | Within a sorted list the back expires first. |
| `ShadowTable.StoppedIsClean` | cacheroute/shadow.go:541-551 | In a sorted table, once every list is empty or has an unexpired back, no entry is expired. |
| `ShadowTable.PopExpired` | cacheroute/shadow.go:541-551 | Evicting an expired back keeps the shape and the account of what the pass removed. |
| `ShadowTable.DropEmptyOk` | cacheroute/shadow.go:552-554 | Deleting an empty list loses no entry. |
| `ShadowTable.PassAdvances` | cacheroute/shadow.go:535-561 | One list more of a pass: shape and order hold, only expired entries went, no empty list is left, and the lists done are empty or have an unexpired back while the chunk is not used up. |
| `ShadowLog.BumpCounts` | cacheroute/shadow.go:481-500 | The two rate buckets count exactly the landings of the current and the previous minute in the complete log. |
| `ShadowLog.LogRateCounts` | cacheroute/shadow.go:495-515 | Weighting each landing of the log by 1 in the current minute and by the share of the minute before that the last 60 s cover gives the two-bucket rate. |
| `ShadowLog.ReuseAgrees` | cacheroute/shadow.go:340-398 | The reuse class of a tracked key is the one computed from the complete log. |
| `ShadowLog.ObserveAgrees` | cacheroute/shadow.go:340-398 | One observation answers reuse class, rate and time since the latest landing as the complete log would, and keeps the simulation. |
| `ShadowLog.PeekAgrees` | cacheroute/shadow.go:303-312 | A peek returns the weighted sum over the complete log, for a tracked and for a forgotten key. |
| `ShadowLog.SweepKeepsSim` | cacheroute/shadow.go:531-561 | Any sweep keeps the simulation of the log by the table. |
| `ShadowLog.RunKeepsInv` | cacheroute/shadow.go:340-561 | Every table reachable by observations, sweeps and peeks satisfies the table invariant. |
| `ShadowLog.RunKeepsSim` | cacheroute/shadow.go:340-561 | In every run the entry of a settled key remembers exactly what still matters of its landings. |
| `ShadowLog.SweepingIsInvisible` | cacheroute/shadow.go:16-28 | In every run with a nondecreasing clock, each answer about a key kept at one retention of at least 30 s and never evicted for capacity is the answer of the complete log: sweeping is a memory bound, not a correctness one. |
| `ShadowLog.ConfiguredRetentionsAreInvisible` | cacheroute/cacheroute.go:100-117 | That covers every retention a configuration can set: whole minutes, at least one. |
| `ShadowLog.InvisibleExactly` | cacheroute/shadow.go:16-28 | The exact bound: it holds for a key and retention if and only if four retentions span two minutes. |
| `Shadow.PruneStale` | cacheroute/shadow.go:360-364 | The deletion loop keeps exactly the hosts seen within the retention. |
| `Shadow.Shadow.constructor` | cacheroute/shadow.go:113-131 | A new table is empty and satisfies the invariant. |
| `Shadow.Shadow.ShiftCountLocked` | cacheroute/shadow.go:403-416 | The aggregate becomes the shifted one, whose recount is proved by ShiftOk. |
| `Shadow.Shadow.EvictLocked` | cacheroute/shadow.go:472-479 | Entry, list element and aggregate row go together. |
| `Shadow.Shadow.FindOldest` | cacheroute/shadow.go:444-460 | The scan over the backs of all lists finds a victim in any visiting order, and none only in an empty table. |
| `Shadow.Shadow.MakeRoom` | cacheroute/shadow.go:444-460 | At capacity exactly one entry is evicted, the oldest; otherwise nothing changes. |
| `Shadow.Shadow.TouchLocked` | cacheroute/shadow.go:431-440 | The entry moves to the front of the list of its new retention. |
| `Shadow.Shadow.PlaceLanding` | cacheroute/shadow.go:381-393 | Home, factor, pick and demotion are those of the given decision, or those the ranking gives. |
| `Shadow.Shadow.TouchOrInsert` | cacheroute/shadow.go:340-358 | The landing starts from the existing entry or from a fresh one, already at the front of its list. |
| `Shadow.Shadow.RecordLanding` | cacheroute/shadow.go:360-398 | Reuse class, interval and rate are reported from the entry before the landing; entry and aggregate are updated to the one after it. |
| `Shadow.Shadow.ObserveKeyed` | cacheroute/shadow.go:340-398 | The observation performs the observation step above with the same result and keeps the shape whatever time was read before the lock; while landings come in clock order it keeps the lists sorted too. |
| `Shadow.Shadow.PeekRate` | cacheroute/shadow.go:304-312 | The rate of a tracked key, or zero; PeekAgrees says what it is of the log. |
| `Shadow.Shadow.Decide` | cacheroute/shadow.go:163-214 | No decision for unkeyed requests, small pools and empty pools; otherwise order, home, factor and demotion follow from ranking, rate and cap. |
| `Shadow.Shadow.SweepList` | cacheroute/shadow.go:541-551 | Pops only expired entries off one list, within the budget, and below it leaves the list empty or with an unexpired back. |
| `Shadow.Shadow.SweepPass` | cacheroute/shadow.go:535-556 | One lock acquisition removes at most 1024 entries, all of them expired, leaves no empty list, and below the chunk leaves every list with an unexpired back. |
| `Shadow.Shadow.Sweep` | cacheroute/shadow.go:535-561 | Terminates having removed only expired entries and, if landings came in clock order, left no expired one, while the clock may advance between passes. |
| `CitationLink.MatchIsLink` | toolruntime/citations/stream.go:160-218 | The matcher reports a match if and only if the text holds a link of the bracket grammar there, with exactly these label and end positions. |
| `CitationLink.IncompleteExactly` | toolruntime/citations/stream.go:160-218 | The matcher waits exactly at the end of the text, in an unfinished label, right after a label, and in an unfinished URL. |
| `CitationLink.MatchMarkdownLink` | toolruntime/citations/stream.go:160-218 | The two index loops compute that matcher, with its incomplete and invalid outcomes. |
| `CitationLink.MatchExtends` | toolruntime/citations/stream.go:160-218 | A match or a refusal on a prefix is final, and an incomplete link can only complete beyond the prefix. |
| `CitationLink.NormalizeLinkBrackets` | toolruntime/citations/stream.go:220-234 | The opener and the first fullwidth closer of the span are replaced, and nothing else. |
| `CitationLink.NormalizeRunes` | toolruntime/citations/stream.go:220-234 | Rune by rune: a fullwidth opener turns into an ASCII one, the first fullwidth closer of the span into an ASCII one, and every other rune stays. |
| `CitationLink.NormalizedLink` | toolruntime/citations/stream.go:220-234 | After normalization a matched link reads bracket, label, bracket, parenthesis in ASCII. |
| `CitationLink.NormalizeLocal` | toolruntime/citations/stream.go:220-234 | Normalization reads and changes nothing outside its span. |
| `CitationStream.DrainInStep` | toolruntime/citations/stream.go:66-122 | A drain forwards the next stretch of one left-to-right pass over the whole text and stops in step with it. |
| `CitationStream.OneShotRenders` | toolruntime/citations/stream.go:50-63 | One push of the whole text and a flush is that pass. |
| `CitationStream.ContentIsTheText` | toolruntime/citations/stream.go:50-122 | However a text is chunked, the client reads exactly that text, rune by rune, except that fullwidth brackets may have turned ASCII; without any it is forwarded unchanged. |
| `CitationStream.NotesAreLinks` | toolruntime/citations/stream.go:96-107 | The annotations are exactly those of the resolved links the pass comes by, with label span, the link's own URL and the title found. |
| `CitationStream.ChunkingIsInvisible` | toolruntime/citations/stream.go:50-122 | Every way of splitting the text into pushes gives the same content and the same annotations, provided every link fits. |
| `CitationStream.ShortLinksFit` | toolruntime/citations/stream.go:50-122 | The proviso holds if no complete link of the text spans more than 4097 runes. |
| `CitationStream.OverlongLinkIsVisible` | toolruntime/citations/stream.go:108-114 | A text with a longer link can be cut so that its annotation is lost. |
| `CitationStream.ChunkingExactly` | toolruntime/citations/stream.go:50-122 | Chunking never shows, for any sources and any split, if and only if every link the pass finds spans at most 4097 runes. |
| `CitationEmitter.DrainConserves` | toolruntime/citations/stream.go:66-137 | From any conserving state a drain leaves the emitted content equal to the flushed text, spans that are labels in the emitted output, increasing and disjoint, and holds back at most 4096 runes that begin at an incomplete opener; a final drain holds nothing back. |
| `CitationEmitter.FindNextLinkOpen` | toolruntime/citations/stream.go:139-149 | The scan returns the first opener from a position on. |
| `CitationEmitter.Emitter.constructor` | toolruntime/citations/stream.go:44-46 | A new emitter has emitted and holds nothing. |
| `CitationEmitter.Emitter.DrainText` | toolruntime/citations/stream.go:73-122 | The loop computes the drain above. |
| `CitationEmitter.Emitter.Push` | toolruntime/citations/stream.go:50-58 | Conservation and the bound on held runes after every push, with or without Harmony rewriting; an empty delta changes nothing. |
| `CitationEmitter.Emitter.Flush` | toolruntime/citations/stream.go:60-63 | Conservation after a flush, with nothing left unflushed. |
| `CitationEmitter.HarmonyOff` | toolruntime/citations/stream.go:127-130 | With Harmony off the buffer is drained as it is. |
| `CitationEmitter.StreamAll` | toolruntime/citations/stream.go:48-63 | With Harmony off, all content and annotations an emitter has returned after any pushes and a flush are those of the chunking theorems. |
| `SseDetector.ScanConcat` | latency.go:317-346 | Feeding a and then b leaves the state of feeding both at once, and its result is the or of the two. |
| `SseDetector.ScanBounded` | latency.go:288-313 | The line and data buffers never exceed 64 KiB. |
| `SseDetector.ScanSegment` | latency.go:348-359 | Buffering a segment without newline at once equals buffering it byte by byte, across the overflow rule. |
| `SseDetector.LineScan` | latency.go:325-343 | Completing a line from a partial one equals scanning its bytes. |
| `SseDetector.SseTokenDetector.constructor` | latency.go:306-313 | A new detector has an empty state. |
| `SseDetector.SseTokenDetector.Buffer` | latency.go:348-359 | The partial line grows, or is dropped and its event skipped once it would overflow. |
| `SseDetector.SseTokenDetector.Process` | latency.go:361-397 | A blank line judges and resets the event; a data line joins it or makes it oversized; other lines are ignored. |
| `SseDetector.SseTokenDetector.IndexNewline` | latency.go:320-324 | The first newline, or none. |
| `SseDetector.SseTokenDetector.CompleteLine` | latency.go:325-343 | The rest of a line is joined to the partial one; an overlong or skipped line is not processed. |
| `SseDetector.SseTokenDetector.Feed` | latency.go:315-346 | The consuming loop equals the byte-by-byte scan from any bounded state and keeps the buffers bounded. |
| `SseStream.OversizedStep` | latency.go:383-395 | The running length check decides whether the joined data of an event exceeds the buffer: a value is shorter than its line, so the stricter comparison never matters for a value alone. |
| `SseStream.LineReads` | latency.go:363-383 | Trimming and cutting a line reads it as raw bytes: nothing or a lone CR is blank, a line that begins with data: is a data line, and its value is what follows less one space in front and one CR at the end. |
| `SseStream.ValueRoundTrip` | latency.go:373-383 | Any value is read back, with or without the space and with either line end. |
| `SseStream.JoinSplits` | latency.go:390-395 | Splitting the joined data at line feeds gives the values back. |
| `SseStream.DataLineReads` | latency.go:375-397 | A non-blank line extends the open event of the simple reading. |
| `SseStream.ProcessReads` | latency.go:361-397 | One complete line extends the reading: lines, events, joined data and verdicts. |
| `SseStream.OverlongReads` | latency.go:327-340 | An overlong line only marks its event as skipped. |
| `SseStream.ScanReads` | latency.go:317-397 | After any bytes the state is the reading of the stream: partial line, open event, verdicts so far. |
| `SseStream.ChunksScan` | latency.go:317-346 | Any sequence of writes is one scan of their concatenation. |
| `SseStream.DetectorReadsStream` | latency.go:288-397 | Over any writes a token is reported if and only if some closed event of the stream, not oversized, classifies as one; likewise for errors; buffers stay within 64 KiB. |
| `SseStream.LineEndsDoNotMatter` | latency.go:363-371 | A stream without CR whose lines leave room for one gives the same token and error verdicts when every LF is sent as CR LF, however either is cut. |
| `RouteCache.TouchOk` | route_context_cache.go:48-52 | A read keeps the accounting. |
| `RouteCache.RemoveOk` | route_context_cache.go:84-91 | Removing an entry keeps the accounting. |
| `RouteCache.LoopHasVictim` | route_context_cache.go:95-101 | The eviction loop never pops an empty list, since what it makes room for fits the whole cache. |
| `RouteCache.MakeRoomOk` | route_context_cache.go:95-101 | Eviction drops a suffix of the list and no more than needed, and the watermark covers every sequence it drops. |
| `RouteCache.PutOk` | route_context_cache.go:70-107 | Every put keeps the byte sum exact and within budget, and map and list in bijection. |
| `RouteCache.PutExactly` | route_context_cache.go:70-107 | A put is accepted exactly if it fits and is not older than the entry, or newer than the watermark where there is none; then its key holds it in front, and otherwise nothing changes. |
| `RouteCache.SizeCountsAllText` | route_context_cache.go:71-78 | An answer is charged 1024 bytes and twice all the text it carries. |
| `RouteCache.TouchKeepsOrder` | route_context_cache.go:48-52 | The list stays exactly the order of last touch after a read. |
| `RouteCache.PutKeepsOrder` | route_context_cache.go:70-107 | The list stays exactly the order of last touch after a put. |
| `RouteCache.VictimsAreLeastRecent` | route_context_cache.go:95-101 | Every evicted key was touched before every kept one. |
| `RouteCache.RejectionLapses` | route_context_cache.go:55-64 | A validated rejection is shown for exactly its retry-after seconds, with a positive remaining wait, and then not at all. |
| `RouteCache.ShownDecision` | route_context_cache.go:55-64 | Other decisions are shown as stored; a rejection is shown unchanged but for its wait, which is the original less the whole seconds since. |
| `RouteCache.ValidLimitExactly` | route_context.go:84-101 | The decisions that pass: allowed without reason, demoted for requests, rejected for requests or tokens with time to wait; counters present and not negative. |
| `RouteRefresh.PutKeepsFresh` | route_context_cache.go:70-107 | Every put, accepted, refused or evicting, keeps: a present entry is an offered answer of maximal sequence, and an absent key has all its offers under the watermark. |
| `RouteRefresh.StartOk` | route_context.go:168-175 | Starting a refresh draws a sequence number not in use and keeps the invariant, also when all slots are busy. |
| `RouteRefresh.DeliverOk` | route_context.go:178-188 | Handing an answer to the cache keeps the invariant; the metadata of a success is still to be renewed. |
| `RouteRefresh.RenewOk` | route_context.go:184-187 | The second put of a refresh, of the metadata, may come at any later point and keeps the invariant. |
| `RouteRefresh.CompleteOk` | route_context.go:176-190 | A refresh may complete in any order or fail, and the invariant stays. |
| `RouteRefresh.FewStartsAreGranted` | route_context.go:168-175 | In a run that has asked for fewer than 256 refreshes every one is granted, and numbered in order. |
| `RouteRefresh.StillInflight` | route_context.go:168-190 | A started refresh is in flight under its own key until it is answered. |
| `RouteRefresh.AnswerReachesTheCache` | route_context.go:178-183 | Every inference answer that is a denial or carries a decision and fits is offered when it comes; its key then holds an answer at least as late, that very one if no later-started one was offered, unless the key was absent and the refresh is at or below the watermark. |
| `RouteRefresh.NothingToStore` | route_context.go:178-180 | An outage and an inference answer without a decision leave the cache as it was. |
| `RouteRefresh.MetadataReachesTheCache` | route_context.go:193-235 | A metadata refresh offers who the caller is under its own key. |
| `RouteRefresh.RenewalReachesTheCache` | route_context.go:184-187 | A success offers the caller's identity, without the decision, under the metadata key. |
| `RouteRefresh.RunOk` | route_context.go:168-190 | Accounting, freshness, unique sequence numbers and the bound on refreshes hold after every run of reads, starts, completions and renewals. |
| `RouteRefresh.CachedDecisionsAreValid` | route_context.go:296-306 | In every run whose inference answers passed the check of fetch, every cached decision is valid. |
| `RouteRefresh.CachedRejectionsCountDown` | route_context.go:296-306 | Then every cached rejection has a positive retry-after, as reading it needs. |
| `RouteRefresh.OffersGrow` | route_context.go:168-190 | What was offered stays on record at every later point of the run. |
| `RouteRefresh.LatestStartedIsVisible` | route_context.go:168-190 | In every run the verdict shown for an inference key is that of the latest-started refresh among all offered; an absent key has all its offers at or below the watermark. |
| `RouteRefresh.NoStaleVerdict` | route_context_cache.go:70-107 | Once an answer was offered, no earlier-started one is visible for its key at any later point, across any evictions. |
| `RouteRefresh.RouteContextCache.constructor` | route_context_cache.go:37-46 | A new cache is empty with watermark zero. |
| `RouteRefresh.RouteContextCache.Get` | route_context_cache.go:48-68 | A hit moves to the front and shows its answer as of now, a miss changes nothing; a rejection must carry its retry-after, which CachedRejectionsCountDown provides. |
| `RouteRefresh.RouteContextCache.EvictFor` | route_context_cache.go:95-101 | The loop terminates and equals the eviction above. |
| `RouteRefresh.RouteContextCache.Put` | route_context_cache.go:70-107 | The put above, with accounting and touch order kept. |
| `ToolCallDeltas.ForwardAllSends` | toolruntime/chat_stream.go:762-775 | Flushing held deltas sends each once, in order, under one client index, and records their ids. |
| `ToolCallDeltas.ArgsConserved` | toolruntime/chat_stream.go:656-691 | The argument fragments of a call, as forwarded, concatenate to its assembled arguments. |
| `ToolCallDeltas.ReceivedIsAssembled` | toolruntime/chat_stream.go:656-691 | A client that lets ids, types and names of a call's frames replace and its argument text append ends up with the call as the router assembled it. |
| `ToolCallDeltas.OfIsFilter` | toolruntime/chat_stream.go:656-691 | The deltas of a call are those with its index, in stream order. |
| `ToolCallDeltas.UnderIsFilter` | toolruntime/chat_stream.go:762-775 | The frames of a call are those under its client index, in order. |
| `ToolCallDelivery.RouteSends` | toolruntime/chat_stream.go:720-751 | Routing one delta sends nothing, itself, or all held deltas of its call, by the first name the call was given. |
| `ToolCallDelivery.IngestOk` | toolruntime/chat_stream.go:656-751 | One delta keeps the delivery invariant of every call, its own and all others. |
| `ToolCallDelivery.IterateOk` | toolruntime/chat_stream.go:656-821 | The invariant holds after any stream of deltas from any earlier iterations. |
| `ToolCallDelivery.LiveExactly` | toolruntime/chat_stream.go:720-775 | A call has all its deltas forwarded live, one frame each and in order, so that the client receives id, type, name and arguments as assembled, if and only if its first name is a client tool; any other call has no frame. |
| `ToolCallDelivery.StreamedExactly` | toolruntime/chat_stream.go:762-768 | The ids on record are those of earlier iterations and those that live calls carried, and no others. |
| `ToolCallDelivery.IndicesAreFresh` | toolruntime/chat_stream.go:794-803 | Client indices of an iteration are consecutive from where the previous one stopped, one per forwarded call, and every frame carries one. |
| `ToolCallDelivery.IndicesNeverReused` | toolruntime/chat_stream.go:707-718 | Over all iterations every index of an earlier iteration is below every index of a later one. |
| `ToolCallFinish.SplitKeepsAll` | toolruntime/tool_call.go:89-100 | The two sides together hold every call as often as it was made, and each side only its owner's. |
| `ToolCallFinish.SplitToolCalls` | toolruntime/tool_call.go:89-100 | The appending loop returns the two sides in order, a permutation of the calls between them. |
| `ToolCallFinish.TakeEntries` | toolruntime/chat_stream.go:1074-1092 | The loop takes, in order, the first matching entry for each call. |
| `ToolCallFinish.ReceivedWhole` | toolruntime/chat_stream.go:1082-1087 | A client that gets a call whole has its id, name and arguments as assembled, and its type, function where it had none. |
| `ToolCallFinish.IterationIsIngest` | toolruntime/chat_stream.go:656-718 | A whole iteration is one long ingest from the reset state, whatever the chunks were. |
| `ToolCallFinish.DeltaForwarder.constructor` | toolruntime/chat_stream.go:693-705 | A new forwarder has sent nothing and starts at index zero. |
| `ToolCallFinish.DeltaForwarder.ResetIteration` | toolruntime/chat_stream.go:707-718 | Classification and per-iteration indices go; streamed ids and the next index stay. |
| `ToolCallFinish.DeltaForwarder.Send` | toolruntime/chat_stream.go:762-775 | One frame goes out under the call's client index, assigned on first use. |
| `ToolCallFinish.DeltaForwarder.Ingest` | toolruntime/chat_stream.go:720-751 | The routing step above, with the frames appended to what was emitted. |
| `ToolCallFinish.DeltaForwarder.RecordStreamedWithoutIDs` | toolruntime/chat_stream.go:777-792 | Counts the live calls without id, by name. |
| `ToolCallFinish.DeltaForwarder.TakeUnstreamed` | toolruntime/chat_stream.go:805-821 | Returns what is left to send and draws down the counts. |
| `ToolCallFinish.DeltaForwarder.Finalize` | toolruntime/chat_stream.go:556-573 | The entries taken for the calls left to send go out whole, under the next free indices. |
| `ToolCallFinish.ToolCallBuilder.constructor` | toolruntime/chat_stream.go:693-705 | A new builder has no entries. |
| `ToolCallFinish.ToolCallBuilder.Ingest` | toolruntime/chat_stream.go:656-691 | Negative indices are dropped; every other fragment is merged and forwarded, as in the iteration above. |
| `ToolCallFinish.ToolCallBuilder.GrowTo` | toolruntime/chat_stream.go:671-673 | Missing entries up to the index are added blank. |
| `ToolCallFinish.ToolCallBuilder.ToolCalls` | toolruntime/chat_stream.go:827-845 | One call per named entry, in order. |
| `ToolCallMatch.UnstreamedKeeps` | toolruntime/chat_stream.go:805-821 | A call with an id is kept if and only if the id was not streamed; one without, if and only if at least as many of its name came before it as were streamed in all; the order is kept. |
| `ToolCallMatch.KeptExactly` | toolruntime/chat_stream.go:805-821 | The kept calls are exactly the missed ones, client-owned but never forwarded, if and only if no missed call carries a streamed id and, per name, the live calls without id come first. |
| `ToolCallMatch.TakenExactly` | toolruntime/chat_stream.go:1074-1106 | The entries sent for the kept calls are the given ones if and only if each is the first match of its call after the one before it; every kept call gets an entry. |
| `ToolCallMatch.ApartAims` | toolruntime/chat_stream.go:1074-1106 | If each missed call has an id not streamed, or a name no live call has, it is kept and its own entry is sent. |
| `ToolCallMatch.NumberedExactly` | toolruntime/chat_stream.go:805-821 | When every client call has an id, exactly the missed entries are sent if and only if no missed call carries a streamed id. |
| `ToolCallMatch.UnnumberedAims` | toolruntime/chat_stream.go:1094-1106 | When no client call has an id, exactly the missed entries are sent if and only if the kept names are the missed names in order and no call of its name lies between a missed call and the missed one before it. |
| `ToolCallTurn.RecordCounts` | toolruntime/chat_stream.go:777-792 | The recorded count of a name is the number of live calls under it without an id. |
| `ToolCallTurn.TurnRecords` | toolruntime/chat_stream.go:777-792 | At the end of any turn the counts and ids on record are exactly those of its live calls. |
| `ToolCallTurn.TurnEnds` | toolruntime/chat_stream.go:556-573 | What unstreamed returns and what finalize sends, read off the deltas alone. |
| `ToolCallTurn.DeliveredIff` | toolruntime/chat_stream.go:556-573 | A turn is delivered exactly once, the client receiving each client-owned call as assembled, either live or whole at the end and never both, and nothing of any other call, if and only if no router-owned call went live and exactly the missed entries are sent at the end. |
| `ToolCallTurn.DeliveredExactly` | toolruntime/chat_stream.go:556-821 | For every stream of deltas that holds if and only if no call is first a client's and last the router's, and the kept calls aim at the missed ones. |
| `ToolCallTurn.DeliveredApart` | toolruntime/chat_stream.go:556-821 | When the missed calls can be told apart, unstreamed returns exactly them, in order, and the turn is delivered exactly once if and only if no call is first a client's and last the router's. |
| `ToolCallTurn.DeliveredNumbered` | toolruntime/chat_stream.go:556-821 | When every client call has an id: exactly once if and only if no call leaked and no missed call carries a streamed id. |
| `ToolCallTurn.DeliveredUnnumbered` | toolruntime/chat_stream.go:556-821 | When no client call has an id: exactly once if and only if no call leaked, the kept names are the missed names in order, and no call of its name obstructs a missed one. |
| `ToolCallTurn.OwnIDsAreFresh` | toolruntime/chat_stream.go:762-768 | Ids that belong to one call each and were not streamed in an earlier iteration are never streamed for another call. |
| `ToolCallTurn.ForcedFinalDelivered` | toolruntime/chat_stream.go:1056-1066 | The forced final turn sends nothing at the end: exactly once if and only if every call keeps its owner. |
| `ToolCallTurn.NothingLeftToSend` | toolruntime/chat_stream.go:805-821 | A turn without missed calls leaves nothing to send, whatever its ids. |
| `ToolCallTurn.EndIndicesAreFresh` | toolruntime/chat_stream.go:556-573 | What goes out at the end is the whole assembled call, under an index above every frame's. |
| `ToolCallTurn.LeakedCallIsNotDelivered` | toolruntime/chat_stream.go:720-751 | Any call named after a client tool and then after a router tool has its deltas at the client, although the router runs it. |
| `ToolCallTurn.MissedCallIsDelivered` | toolruntime/chat_stream.go:556-573 | Any call named after a router tool and then after a client tool, with a fresh id, goes out whole exactly once. |
| `ToolCallTurn.UnnumberedPair` | toolruntime/chat_stream.go:1094-1106 | Of two client calls under one name without ids, one live and one missed, the first is always the one sent at the end: exactly once if and only if that is the missed one. |
| `ToolCallTurn.SecondCallIsLost` | toolruntime/chat_stream.go:1094-1106 | Such a turn in which the live call goes out twice and the missed one never. |
| `ToolLoop.AddIsSum` | toolruntime/runtime.go:70-86 | Accumulated counters are the sums over the answered turns; a turn without a total contributes prompt plus completion. |
| `ToolLoop.BilledExactly` | toolruntime/runtime.go:88-111 | Nothing is billed exactly when prompt, completion and total are zero; otherwise the counters themselves, with the total made up from prompt and completion if none was reported. |
| `ToolLoop.FixedIsValid` | toolruntime/quirks.go:278-296 | The repair leaves valid and empty text alone and otherwise yields valid text: the repaired one, else the empty object. |
| `ToolLoop.RepairSettles` | toolruntime/quirks.go:278-296 | Repairing repaired arguments changes nothing. |
| `ToolLoop.SanitizeTwice` | toolruntime/quirks.go:252-299 | Sanitizing a history whose front was already sanitized equals sanitizing it once. |
| `ToolLoop.CarriedSanitizes` | toolruntime/tool_loop.go:376-382 | The history a turn starts from sanitizes to the initial history followed by all blocks so far. |
| `ToolLoop.BlockAnswersEachCall` | toolruntime/tool_loop.go:456-470 | A block is one assistant message followed by exactly one tool message per call, in order, with matching ids. |
| `ToolLoop.BlocksAreTurns` | toolruntime/tool_loop.go:456-470 | The blocks are the turns' messages, each followed by its outputs, one turn after the other. |
| `ToolLoop.RequestReplays` | toolruntime/tool_loop.go:139-151 | Up to the tenth turn a request is the sanitized initial history followed by the sanitized blocks so far. |
| `ToolLoop.FinalRequestReplays` | toolruntime/prompt.go:82-99 | After ten turns the last block goes out as received, with the final instruction behind it. |
| `ToolLoop.SurfacedKeepsMessage` | toolruntime/tool_loop.go:412-454 | The client sees the last message itself, or that message with just its own calls, in order. |
| `ToolLoop.ExecuteCalls` | toolruntime/tool_loop.go:177-187 | One output per call, in order; equal calls at different positions may have different outputs. |
| `ToolLoop.RunSends` | toolruntime/tool_loop.go:139-151 | The next request extends a run whose turns were all router turns. |
| `ToolLoop.RunAnswers` | toolruntime/tool_loop.go:151-161 | The reply to the latest request extends the run. |
| `ToolLoop.RunToolLoop` | toolruntime/tool_loop.go:108-219 | Every request is the initial history followed by one block per earlier turn, all of them router turns; there are at most 11; the billed usage is the sum over answered turns, on error exits too; the client sees the last reply, without the router's calls in a mixed turn. |
| `Breaker.RunTells` | manager/circuitbreaker.go:18-110 | In every run of method-level steps the breaker is closed if and only if fewer than three failures were recorded since the last success, and half-open if and only if a claim is live, which then holds the latest token. |
| `Breaker.ClaimGrantedExactly` | manager/circuitbreaker.go:81-93 | A claim is granted if and only if three failures are on record, none is live and 30 s passed since the last failure or effective abort; its token was never handed out before. |
| `Breaker.OnlyLiveTokenAborts` | manager/circuitbreaker.go:99-110 | A token other than the live one changes nothing; the live one reopens the breaker. |
| `Breaker.ProbeFailureReopens` | manager/circuitbreaker.go:63-69 | A failure while a probe is out reopens the breaker. |
| `Breaker.CircuitBreaker.constructor` | manager/circuitbreaker.go:39-41 | A new breaker has an empty history. |
| `Breaker.CircuitBreaker.RecordSuccess` | manager/circuitbreaker.go:56-59 | Closes, and is the success step of the run. |
| `Breaker.CircuitBreaker.RecordFailure` | manager/circuitbreaker.go:63-69 | Open from the third failure since the last success on, closed before. |
| `Breaker.CircuitBreaker.ClaimProbe` | manager/circuitbreaker.go:81-93 | Granted exactly when the history says so, then half-open with the live token. |
| `Breaker.CircuitBreaker.AbortProbe` | manager/circuitbreaker.go:99-110 | Effective exactly for the live claim; otherwise nothing changes. |
| `Metrics.MarksOf` | config/config.go:85-92 | The clear mark of a configured pair lies below its trip mark and is not negative. |
| `Metrics.MarksExactly` | config/config.go:85-92 | A configured clear mark below the trip mark is kept; without one it is half the trip mark. |
| `Metrics.TrippedAppend` | manager/metrics.go:72-77 | One evaluation carries the hysteresis over to the longer sample series. |
| `Metrics.ReevaluationIsIdle` | manager/routing_tiers.go:46-50 | Evaluating the latest sample again changes nothing. |
| `Metrics.SampleTells` | manager/metrics.go:288-300 | A sample keeps every flag equal to its hysteresis. |
| `Metrics.ReconfigureTells` | manager/metrics.go:110-143 | A reconfiguration keeps the flag of a pair that stays, starts one that is new and drops one that goes. |
| `Metrics.RunTells` | manager/metrics.go:110-143 | In every run of samples and reconfigurations in clock order, a pair has a flag if and only if it is configured, and the flag is true if and only if some sample since its introduction reached trip and every later one stayed above clear. |
| `Metrics.TierReadsHysteresis` | manager/routing_tiers.go:35-55 | A backend is ranked overloaded if and only if its sample is usable and the history of the pair is tripped. |
| `Metrics.TierExactly` | manager/routing_tiers.go:35-55 | Each tier from the sample: without a policy preferred; unusable samples unknown; at trip, or tripped and above clear, overloaded; of the rest exactly idle queues with fewer running than the soft limit preferred. |
| `Metrics.ConfigureExactly` | manager/metrics.go:110-143 | Reconfiguring keeps the sample exactly if some policy is enabled, and asks for running counts exactly if an enabled one has a soft limit. |
| `Metrics.EnclaveMetrics.constructor` | manager/metrics.go:79-87 | No flags and no sample. |
| `Metrics.EnclaveMetrics.ConfigurePolicies` | manager/metrics.go:110-143 | Exactly the configured pairs have flags afterwards, re-evaluated on a current sample; without an enabled policy the sample is forgotten. |
| `Metrics.EnclaveMetrics.UpdateLatest` | manager/metrics.go:288-300 | Every flag is evaluated on the new sample, in any visiting order, if it has a waiting count. |
| `Selection.OverloadMeansAllOverloaded` | manager/routing_tiers.go:117-136 | Overload is reported only if every attested breaker-closed candidate is overloaded. |
| `Selection.OpenOnlyIfNoneClosed` | manager/routing_tiers.go:139-142 | Without a claim, an enclave that is not closed is returned only if no closed candidate exists. |
| `Selection.SpillProbeNeedsIdlePrimary` | manager/routing_tiers.go:117-124 | A spill probe is claimed only if no primary enclave is preferred and no primary probe is due. |
| `Selection.RetryIsSafe` | manager/routing_tiers.go:73-83 | With a failed host, a retry is nobody or a closed, attested, preferred or busy enclave other than that host. |
| `Selection.SafeQueryExactly` | manager/routing_tiers.go:73-83 | For every query the retry is safe if and only if a failed host is named, or some replica is known to have room, or none is of unknown load and an overloaded one hides the open breakers, if any. |
| `Selection.SafeHostExactly` | manager/routing_tiers.go:73-83 | The method keeps that promise for every fleet if and only if the failed host is not the empty name. |
| `Selection.RetryWithoutFailedHost` | manager/routing_tiers.go:73-83 | Both ways it fails with the empty name: an open breaker and a replica of unknown load are returned. |
| `Selection.PickIsEligible` | manager/routing_tiers.go:92-98 | Whatever is returned belongs to one of the caller's pools. |
| `Selection.ServedIsBest` | manager/routing_tiers.go:85-143 | A served replica could be handed out, and none that could be is of a better tier, nor a primary one of its tier if it is from the spill set. |
| `Selection.BreakerFromHistory` | manager/routing_tiers.go:99-106 | A breaker counts as closed exactly below three failures since the last success, and its probe is due exactly when a claim would be granted. |
| `Reservations.DerivedPerOrg` | manager/manager.go:79-144 | An organization's hosts are the union over all reservations that list it, it is known if and only if it has one, and its policy is that of the last reservation that gives it one. |
| `Reservations.DerivedReserved` | manager/manager.go:79-144 | The reserved set is exactly the union over all organizations, within the configured hosts. |
| `Reservations.PartitionOrNothing` | manager/manager.go:126-143 | Shared and reserved hosts partition the configured ones, and something is reserved if and only if some organization has hosts. |
| `Reservations.ReservedCallerPolicy` | manager/manager.go:165-177 | A reserved caller gets its own hosts as primary pool, under its own reservation's policy. |
| `Reservations.PoolsExactly` | manager/manager.go:165-177 | No filter while nothing is reserved; otherwise a caller's own hosts with every configured host nobody reserved to spill to, or just the latter as its primary pool. |
| `Reservations.DerivedOverloads` | manager/manager.go:108-117 | A host is polled under the policy of the last reservation, for an actual organization, that names it. |
| `Reservations.ReservationsIsolate` | manager/manager.go:165-177 | For every configuration, host list, caller and fleet, selection over the caller's pools never returns a host reserved for others and not for the caller. |
| `ReplicaPool.FillPool` | manager/routing_tiers.go:94-116 | The loop over the enclaves sorts each candidate into its tier bucket or the probes, in any visiting order. |
| `ReplicaPool.PickTier` | manager/routing_tiers.go:145-168 | The affinity favourite of the bucket, or the least loaded one if that is deeper than the cap allows, or the drawn one. |
| `ReplicaPool.FavouriteIsFirst` | manager/routing_tiers.go:145-168 | The affinity favourite is a candidate, and no host before it in the order is. |
| `ReplicaPool.FirstDue` | manager/routing_tiers.go:119-124 | Finds a due probe if and only if there is one. |
| `ReplicaPool.TryBucket` | manager/routing_tiers.go:117-136 | One bucket of the scan: a claimed probe, a pick by affinity, or proof that the bucket is empty. |
| `ReplicaPool.LastResort` | manager/routing_tiers.go:139-142 | The first degraded enclave, primary pool first. |
| `ReplicaPool.SelectServingLocked` | manager/routing_tiers.go:85-143 | Returns a member of the first non-empty bucket by tier and then pool, a due probe offered before it, the degraded last resort, or nobody. |
| `ReplicaPool.OverloadTellsWait` | config/config.go:96-114 | An overloaded caller is told the configured minutes, one if there are none, and a queue depth above the clear mark. |
| `ReplicaPool.MarkHosts` | manager/manager.go:108-117 | The loop over one reservation's hosts adds exactly the recognized ones. |
| `ReplicaPool.ApplyReservation` | manager/manager.go:94-125 | The loop over one reservation's organizations equals the fold of the theorems above. |
| `ReplicaPool.Model.constructor` | manager/manager.go:701-715 | A new model has no reservations. |
| `ReplicaPool.Model.ApplyReservations` | manager/manager.go:79-144 | Rebuilds the lookup sets of the theorems above from scratch. |
| `ReplicaPool.Model.ReservationPools` | manager/manager.go:165-177 | The pools and policy of a caller. |
| `ReplicaPool.Model.SelectServing` | manager/routing_tiers.go:61-70 | The selection above with its report of overload, wait and queue depth; the selected enclave has one more request in flight, and a claimed probe is out. |
| `ReplicaPool.DispatchedExactly` | manager/routing_tiers.go:61-70 | A dispatch changes one replica only, which has one more request in flight; a claimed probe half-opens it. |
| `ReplicaPool.Model.SelectRetry` | manager/routing_tiers.go:73-83 | No probes, never an overloaded pick; safe whenever SafeQueryExactly says so. |
| `Framing.HeaderRoundTrip` | cachesalt/cachesalt.go:86-104 | The four length bytes are bytes and read back as the length. |
| `Framing.HeadersOrder` | cachesalt/cachesalt.go:86-104 | The most significant byte comes first: headers order as their lengths do. |
| `Framing.ParseOne` | cachesalt/cachesalt.go:86-104 | The first frame of a message is read off exactly. |
| `Framing.ParseFrames` | cachesalt/cachesalt.go:86-104 | Framed fields decode to themselves, for lists of any length. |
| `Framing.WriteFields` | cachesalt/cachesalt.go:86-104 | The loop writes tag and frames, or fails on a field beyond the limit. |
| `Framing.DeriveReads` | cachesalt/cachesalt.go:71-84 | What Derive hashes reads back as the tenant alone or the tenant and the secret, and the mode says which; without a tenant there is nothing. |
| `Framing.FramingIsInjective` | cachesalt/cachesalt.go:86-104 | Under one tag two field lists write the same bytes if and only if they are equal. |
| `Framing.TagsSeparate` | cachesalt/cachesalt.go:86-104 | Tags of which neither is a prefix of the other never write the same bytes. |
| `Framing.SaltInputsSeparate` | cachesalt/cachesalt.go:71-84 | Two callers share a salt input if and only if tenant and secret agree; a tenant-wide one is never a per-user one. |
| `Framing.SaltsAndKeysSeparate` | cacheroute/cacheroute.go:23-25 | No salt input is a routing-key input. |
| `Flatten.AscendingIsUnique` | cacheroute/cacheroute.go:404-412 | A key set has one ascending arrangement. |
| `Flatten.SortKeys` | cacheroute/cacheroute.go:404-412 | Returns that arrangement, in whatever order the map yields its keys. |
| `Flatten.LeavesOfScalar` | cacheroute/cacheroute.go:347-383 | A scalar lists its text, null and unprintable values nothing. |
| `Flatten.LeavesOfArray` | cacheroute/cacheroute.go:364-370 | An array lists its elements in order. |
| `Flatten.LeavesOfObject` | cacheroute/cacheroute.go:371-378 | An object lists its least key, that key's value, and then the rest. |
| `Flatten.ReplaceShows` | cacheroute/cacheroute.go:347-383 | Replacing any part of a value replaces exactly that part's leaves: those before and after stay. |
| `Flatten.ReplaceChanges` | cacheroute/cacheroute.go:347-383 | A value changes its leaves exactly if the replaced part does. |
| `Flatten.FoldGrows` | cacheroute/cacheroute.go:385-402 | Earlier output is a prefix of later output, and the budget is never exceeded. |
| `Flatten.Saturated` | cacheroute/cacheroute.go:385-402 | Once no frame fits, nothing that follows changes the bytes. |
| `Flatten.AppendLeaf` | cacheroute/cacheroute.go:391-402 | One framed leaf, cut to the room left. |
| `Flatten.AppendItems` | cacheroute/cacheroute.go:364-370 | The array loop with its early exit is the fold over all elements. |
| `Flatten.AppendFields` | cacheroute/cacheroute.go:371-378 | The object loop with its early exit is the fold over all keys and values in key order. |
| `Flatten.AppendFlattened` | cacheroute/cacheroute.go:343-387 | The bounded walk with all its early exits equals the left fold of framing over the unbounded sequence of keys and leaves. |
| `Flatten.FlattenWithin` | cacheroute/cacheroute.go:334-341 | Nothing without budget, else the walk from an empty buffer. |
| `Flatten.WindowBounded` | cacheroute/cacheroute.go:216-224 | The three prompt fields together never exceed 1024 bytes. |
| `Flatten.BeyondTheWindow` | cacheroute/cacheroute.go:385-402 | Leaf lists that agree until the window is full give the same bytes, whatever the overflowing leaf goes on to say and whatever follows. |
| `Flatten.FoldShowsVisible` | cacheroute/cacheroute.go:385-402 | The bounded bytes are the exact framing of the visible leaves. |
| `Flatten.VisibleShows` | cacheroute/cacheroute.go:385-402 | The visible leaves are a prefix of all leaves, whole except that the last may be cut, and something is left out only if the window is full. |
| `Flatten.WithinTheWindow` | cacheroute/cacheroute.go:385-402 | Below the budget the bytes are the exact framing of the leaves. |
| `Flatten.UntruncatedIsInjective` | cacheroute/cacheroute.go:334-402 | Below the budget two values flatten alike if and only if their keys and leaves agree. |
| `Flatten.DeriveKeyInput` | cacheroute/cacheroute.go:216-224 | The budget is spent on tools, system and user in turn, and the six fields are framed under the key tag. |
| `Flatten.KeyInputsAgreeExactly` | cacheroute/cacheroute.go:207-224 | Two requests get the same key input if and only if secret, salt and cache key agree and so do the visible keys and leaves of their tools, system and user prompts: content beyond the window cannot change the key, and content within it always does. |
| `Flatten.BeyondTheWindowIsFree` | cacheroute/cacheroute.go:207-224 | Once the tools fill the window, neither their rest nor the other prompts change the key. |

## Left out

- SHA-256, xxhash and base64: the hash of host and key is a function parameter, and salts and keys are
  identified with the bytes that are hashed; the admission cache's hashed keys with their inputs.
- JSON decoding, event classification, argument repair, source resolution and Harmony token rewriting:
  function parameters, arbitrary except where a contract says so.
- HTTP handling, the reverse proxy, TLS and attestation transports, MCP sessions, Prometheus metrics,
  logging, configuration loading, billing events, file inputs and automatic routing: plumbing over
  libraries.
- Extraction of the prompt fields and lengths from a request body: easy case analysis.
- The streaming chat loop around forwarder and finalize, in particular turns that end in an error, and
  the Responses surface of the tool loop.
- Rates and load samples are reals instead of floating-point numbers; times, counters, sequence numbers
  and durations are unbounded integers, without overflow or saturation.
- ShadowLog.SweepingIsInvisible: observations are recorded in clock order. The code reads the clock
  before it takes the lock, so two may be recorded out of order by the width of that gap; what holds
  then is the shape of the table (`ShadowTable.ObserveOk`).
- Entries of the routing table and of the admission cache are values in a map, not shared references:
  aliasing is not captured. List elements are keys.
- Recovered panics in routing decisions and observations; the panic on oversized fields is a `None`.
- The order in which Go ranges over a map is an arbitrary choice or an arbitrary argument; random draws
  are an argument.
- Library sorting is an insertion sort, with a lemma that the sorted arrangement is unique. For
  duplicate hosts no claim is made about the ranking.
- Text deltas are sequences of runes: a multi-byte rune split across two deltas is not captured. The
  function object of a tool-call fragment is a map of strings, and assembled calls keep their argument
  text instead of the decoded object.
- Breaker.RunTells: each method is one atomic step; interleavings of single loads and stores inside two
  methods are not captured, and with them the closed state can lag behind the failure count.
- RouteRefresh.LatestStartedIsVisible: inference keys only; on an outage the metadata key is re-put with
  its previous value under a newer sequence, so no freshness is claimed for it. Answers larger than the
  whole cache never count as offered.
- CitationStream.ChunkingExactly: Harmony off and sources fixed while streaming; no agreement with the
  regular-expression path for complete responses is claimed, because the two grammars differ.
- ToolLoop.RunToolLoop: request fields other than the messages, response headers and citation
  annotations are not modelled; the argument repair must be idempotent, which `ToolLoop.RepairSettles`
  proves of the repair in use.
- RouteRefresh.RouteContextCache.Get: a miss is `None` where the code returns a zero context.
- Client output indices of generic Responses events, and idempotence of control-token stripping, which
  does not hold.
