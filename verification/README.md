# Verified models of SGLang's trace converter and benchmark drivers

This project models, in Dafny, the parts of the SGLang repository's scripts and benchmarks
that are small algorithms or small concurrent protocols, and proves what they are meant to
guarantee for every input and for every run.

**Trace layout** (`scripts/convert_otel_2_perfetto.py`). OpenTelemetry spans are linked into a
forest by parent ids, shortened by 1000 ns, and packed greedily into lanes. A lane is a list of
intervals kept in tuple order and searched by bisection.
`Lanes` is one lane, `LaneLayout` one placement, `LaneRuns` whole layouts, `LaneRule` the rule by
which spans get their lanes, `LaneOptimality` the number of lanes, `LaneGraph` the dictionaries of containers as the program updates them.
`SpanForest` is the forest, `TraceMarks` and `TraceOrders` what the recursive passes do to it,
`TraceConvert` the passes themselves, `TraceOutput` and `TraceMain` the whole conversion.

* Lane safety is exact. The only unchecked placement is a zero-length span put into the lane its
  request last used (line 98). The lanes of a process stay pairwise separated if and only if no
  such span is placed where the check would have said no (`RunSeparatedIff`). Spans of negative
  length, which the 1000 ns trim can make, do no harm. A concrete layout shows the failure
  (`HiddenPointBreaksSafety`).
* The forest results hold for any parent ids, including cycles, self-parents and duplicate ids.
* `ConvertTrace` fails, as the program does with an index error at line 275, exactly when some
  request has no span to lay out.

**Multi-turn workload** (`benchmark/hicache/bench_multiturn.py`). A sender thread, request tasks, a
response queue and a handler thread with an optional round barrier. `MultiTurn` is the step
system: the sender's test of the limit and its pop are separate steps, a release appends one
request at a time, and any step of any thread can come next. `MultiTurnInvariants` has the
invariants, `MultiTurnRuns` the results over runs, `MultiTurnHistory` what the requests of a run
contain, and `MultiTurnThreads` the objects the threads update, tied to the steps.

* Safety of the barrier holds in every run, with or without failed responses. Progress does not:
  a failed response is not counted at the barrier (lines 444-447), and from then on the barrier
  never moves (`FailureStopsBarrier`). A run ends with every round done if and only if no
  response failed, and with a full progress bar, which is what stops both threads, if and only
  if no request raised and every client was answered as often as it has rounds (`EndState`).
* A request's payload holds the history list itself, not a copy. A pending request always equals
  the client's present history (`OneRequestPerClient`), so the shared list does not change while
  the request is outstanding.

**Conversation re-queue** (`benchmark/hicache/bench_serving.py`): `Requeue`, and `RequeueHistory` for
what a run posts. Conversations go round a bounded queue, one turn at a time.

**Redirects** (`benchmark/line_retrieval/gen_data.py`, `benchmark/line_retrieval/bench_sglang.py`):
`Redirects` and `LineQueries`. Chasing "same as" lines with ring detection while values are
overwritten, and questions that can be answered from the lines shown.

**Smaller cores**: `FixFracs` (`benchmark/reasoning_benchmark/answer_extraction.py`), `UserMix`
(`benchmark/hicache/bench_mix.py`), `WheelIndex` (`scripts/update_nightly_whl_index.py`), `ChatFilter`
(`benchmark/hicache/data_processing.py`).

* `_fix_fracs` wraps the two characters after a bare command even if one is a closing brace, and
  then the result does not read as those two arguments. The exact condition is `FixedArguments`.
* `bench_mix.py` inserts at the last index it looked at (line 267), so an entry later than all
  others lands before the last one. The exact condition for the order to survive is
  `InsertKeepsOrderIff`.
* The header of `update_nightly_whl_index.py` (line 6) speaks of an order by commit count; the code
  orders by run, the latest run first, and that is what is modelled.

The program's objects are classes whose methods are proved against functions of the old state;
`Wrappers` and `Counting` hold shared definitions. Times, token lists and ids are unbounded
integers, sequences and strings, as in Python. Threads, network answers, random draws and clocks
are choices of step or parameters. Every lemma is proved by its own body: automatic induction is
off throughout.

## Model

| member | source | states |
|---|---|---|
| `Lanes.BisectLeft` | scripts/convert_otel_2_perfetto.py:59 | the binary search returns the first position whose entry is not below the probe, in tuple order |
| `Lanes.OverlapsIsScan` | scripts/convert_otel_2_perfetto.py:58-70 | looking at the two neighbours of the probe agrees with scanning the whole lane, for every separated lane and every query, of any length |
| `Lanes.OverlapsIsSharing` | scripts/convert_otel_2_perfetto.py:58-70 | for positive lengths the answer is whether some entry of the lane shares an instant with the query |
| `Lanes.InsertKeepsSeparated` | scripts/convert_otel_2_perfetto.py:72-73 | inserting after a negative answer keeps the lane sorted and pairwise separated, whatever the lengths |
| `Lanes.PointInsertIff` | scripts/convert_otel_2_perfetto.py:98-99 | a zero-length entry inserted without the check keeps the lane separated if and only if the check would have let it in |
| `Lanes.SpanLayoutContainer.constructor` | scripts/convert_otel_2_perfetto.py:55-56 | a new container holds nothing |
| `Lanes.SpanLayoutContainer.CheckOverlap` | scripts/convert_otel_2_perfetto.py:58-70 | on a separated list the answer is true exactly when some entry is in the way |
| `Lanes.SpanLayoutContainer.InsertSpan` | scripts/convert_otel_2_perfetto.py:72-73 | the list stays in tuple order and gains exactly the new pair |
| `LaneLayout.FindLineWellFormed` | scripts/convert_otel_2_perfetto.py:95-120 | finding a lane keeps the lanes of every process numbered 1..n, every remembered lane existing and every lane announced once, and leaves a lane remembered |
| `LaneLayout.ChosenLaneFree` | scripts/convert_otel_2_perfetto.py:95-120 | the chosen lane has something in the way of the span if and only if the span is a zero-length one taking the remembered lane unchecked |
| `LaneLayout.StepSeparatedIff` | scripts/convert_otel_2_perfetto.py:278-291 | one placement keeps the lanes of its process separated if and only if it is not such a hidden point |
| `LaneLayout.StepShape` | scripts/convert_otel_2_perfetto.py:278-291 | a placement adds one entry to the lane it leaves remembered and changes no other lane and no other process |
| `LaneLayout.FirstFreeLowest` | scripts/convert_otel_2_perfetto.py:111-114 | the lane found by the scan is the lowest-numbered one with nothing in the way |
| `LaneLayout.OpensOnlyWhenBlocked` | scripts/convert_otel_2_perfetto.py:111-120 | a further lane is opened only when every lane of the process has an entry in the way |
| `LaneRuns.Run` | scripts/convert_otel_2_perfetto.py:277-308 | after any sequence of placements lanes are numbered 1..n and sorted, remembered lanes exist, and each lane has exactly one metadata record |
| `LaneRuns.RunSeparatedIff` | scripts/convert_otel_2_perfetto.py:268-308 | for spans of any lengths in any order, the lanes of a process end up separated if and only if none of its spans was a hidden point when it was placed |
| `LaneRuns.PointsFirstAreSafe` | scripts/convert_otel_2_perfetto.py:278-291 | lanes are safe whenever zero-length spans come only first in a request, where no lane is remembered |
| `LaneLayout.StepLane` | scripts/convert_otel_2_perfetto.py:95-120 | from the contents of the lanes alone: a span takes the lane its request last used in the process if it is a point or nothing there is in the way, and otherwise the lowest-numbered lane with nothing in the way, which may be a new one |
| `LaneRule.TidsFollow` | scripts/convert_otel_2_perfetto.py:278-292 | over whole layouts, from the spans placed before and their lanes: every span gets the lane of its predecessor in the request and process if that will do, else the lowest free one |
| `LaneRule.RuleDecidesLanes` | scripts/convert_otel_2_perfetto.py:268-308 | for any spans without hidden points, a numbering follows that rule if and only if it is the layout's |
| `LaneRuns.LaneHoldsAssigned` | scripts/convert_otel_2_perfetto.py:278-291 | a lane holds exactly the intervals that were given its number, with multiplicity |
| `LaneRuns.SameLaneDisjoint` | scripts/convert_otel_2_perfetto.py:268-308 | two spans of positive length drawn in one lane share no instant, unless a hidden point was placed |
| `LaneRuns.HiddenPointBreaksSafety` | scripts/convert_otel_2_perfetto.py:98-99 | a concrete layout in which a zero-length span lets two overlapping spans into one lane |
| `LaneOptimality.AnyLayoutNeedsDepth` | scripts/convert_otel_2_perfetto.py:294-308 | no assignment to disjoint lanes uses fewer lanes than there are spans at one instant |
| `LaneOptimality.GreedyIsAssignment` | scripts/convert_otel_2_perfetto.py:294-308 | for positive lengths the greedy layout is such an assignment, in any order |
| `LaneOptimality.OpeningCovers` | scripts/convert_otel_2_perfetto.py:111-120 | in start order, when a lane is opened every lane already there has a span covering the new span's start |
| `LaneOptimality.LanesOptimal` | scripts/convert_otel_2_perfetto.py:294-308 | for positive-length spans in start order the number of lanes is the largest number of spans at one instant, and no assignment to disjoint lanes uses fewer |
| `LaneOptimality.LoneSpanOptimalIff` | scripts/convert_otel_2_perfetto.py:294-308 | positive length is needed: for a single span the count is right if and only if the length is positive |
| `LaneGraph.Graph.constructor` | scripts/convert_otel_2_perfetto.py:277 | the layout starts with no lane, nothing remembered and no container |
| `LaneGraph.Graph.FindLine` | scripts/convert_otel_2_perfetto.py:95-120 | the dictionaries of containers, updated in place and never shared between lanes, follow the layout function; the returned lane is the remembered one |
| `LaneGraph.Graph.ScanLines` | scripts/convert_otel_2_perfetto.py:111-114 | the loop over the dictionary, in insertion order 1..n, is the scan of the layout function |
| `LaneGraph.Graph.Keeps` | scripts/convert_otel_2_perfetto.py:96-102 | the remembered lane is used again exactly for a zero-length span or when no entry of that lane is in the way |
| `LaneGraph.Graph.OpenLine` | scripts/convert_otel_2_perfetto.py:104-120 | opening installs a fresh empty container under the next number, remembers it and announces it |
| `LaneGraph.Graph.Place` | scripts/convert_otel_2_perfetto.py:278-291 | one round of the layout loop on the objects is one step of the layout function; new containers are fresh |
| `LaneGraph.Graph.Put` | scripts/convert_otel_2_perfetto.py:289-291 | inserting into one container changes one lane and no other |
| `SpanForest.ChildListExact` | scripts/convert_otel_2_perfetto.py:172-186 | a child list holds, in input order, exactly the non-request spans whose parent id is that span's id and no later span's |
| `SpanForest.AtMostOneParent` | scripts/convert_otel_2_perfetto.py:172-186 | every span is in at most one child list, and requests are in none |
| `SpanForest.PathUnique` | scripts/convert_otel_2_perfetto.py:172-186 | whatever the ids, a span is reached from the requests along at most one chain of child links: a forest |
| `SpanForest.PathBound` | scripts/convert_otel_2_perfetto.py:225-226 | chains from a request never repeat a span and are no longer than the input, so every recursive walk ends |
| `SpanForest.WalkExact` | scripts/convert_otel_2_perfetto.py:225-226 | a recursive walk visits exactly the spans at or below its start, each once |
| `SpanForest.LevelWalksExact` | scripts/convert_otel_2_perfetto.py:229-252 | the walks from all chains of one length visit every span at least that deep exactly once, and no other |
| `TraceMarks.ConvertTopsPointwise` | scripts/convert_otel_2_perfetto.py:198-226 | a span below one of the converted spans loses 1000 ns exactly once and gets one event of the shortened duration; every other span is untouched |
| `TraceMarks.SetTidPointwise` | scripts/convert_otel_2_perfetto.py:261-265 | writing a lane number over a walk changes exactly the events on it, and only their lane |
| `TraceOrders.AllTopsIsLevel` | scripts/convert_otel_2_perfetto.py:230-252 | the three nested loops of the conversion go through exactly the chains of three spans from a request, in order |
| `TraceOrders.SortByOrder` | scripts/convert_otel_2_perfetto.py:269-276 | sorting by start gives a permutation in start order |
| `TraceOrders.SortByStable` | scripts/convert_otel_2_perfetto.py:269-276 | spans with equal starts keep their order |
| `TraceOrders.TidAllPointwise` | scripts/convert_otel_2_perfetto.py:261-292 | after the layout loop an event carries the lane of the one laid-out span it is at or below |
| `TraceOrders.GatherExact` | scripts/convert_otel_2_perfetto.py:395-417 | gathering below all laid-out spans, in any order, meets every span at or below one exactly once |
| `TraceConvert.Converter.constructor` | scripts/convert_otel_2_perfetto.py:172-178 | parsed spans start with their own times and no event |
| `TraceConvert.Converter.BuildTree` | scripts/convert_otel_2_perfetto.py:172-195 | the child lists and the list of requests built in place are those of the forest |
| `TraceConvert.Converter.ConvertSpan` | scripts/convert_otel_2_perfetto.py:198-226 | the recursive conversion ends and changes times and events along its walk and nowhere else |
| `TraceConvert.Converter.GenerateSpans` | scripts/convert_otel_2_perfetto.py:229-252 | the conversion loops trim along all chains of three, and collect each request's spans to lay out |
| `TraceConvert.Converter.SetTid` | scripts/convert_otel_2_perfetto.py:261-265 | the recursive write of a lane number ends and reaches exactly the walk |
| `TraceConvert.Converter.SortRoots` | scripts/convert_otel_2_perfetto.py:269-276 | each request's spans are permuted into start order and the requests ordered by their first span, equal starts keeping their order; it fails exactly when a request has none |
| `TraceConvert.Converter.LayOut` | scripts/convert_otel_2_perfetto.py:277-292 | the layout loops leave the layout function's lanes, and write each laid-out span's lane below it |
| `TraceConvert.LayOutSmg` | scripts/convert_otel_2_perfetto.py:294-308 | the gateway's spans continue the layout as one request on one process |
| `TraceConvert.Converter.GatherOne` | scripts/convert_otel_2_perfetto.py:395-406 | gathering returns the events of the walk, in order |
| `TraceConvert.Converter.GatherAll` | scripts/convert_otel_2_perfetto.py:409-417 | all requests' walks are gathered one after the other |
| `TraceOutput.ConvertedEvent` | scripts/convert_otel_2_perfetto.py:198-252 | after conversion every span at or below a laid-out span has the event of its own start, its end less 1000 ns, and its thread span's process |
| `TraceOutput.FinalEvent` | scripts/convert_otel_2_perfetto.py:229-292 | its final event differs from that only in the lane, which is its laid-out span's |
| `TraceOutput.LaneAnnounced` | scripts/convert_otel_2_perfetto.py:104-120 | the lane any placement was given has exactly one metadata record at the end |
| `TraceOutput.SmgIsOptimal` | scripts/convert_otel_2_perfetto.py:294-308 | after any engine layout the gateway's lanes are 1..n with n the largest number of its spans at one instant, if their lengths are positive |
| `TraceMain.GroupedEmpty` | scripts/convert_otel_2_perfetto.py:274-276 | some collected list is empty exactly when some request has no span two links below it |
| `TraceMain.OutputRight` | scripts/convert_otel_2_perfetto.py:268-292 | from a layout of all spans to lay out and a gathering order: each event once, the right event, sound lanes, announced lanes |
| `TraceOrders.SortByTies` | scripts/convert_otel_2_perfetto.py:269-276 | sorting positions by start breaks ties by position, which decides the order completely |
| `TraceMain.SortSmg` | scripts/convert_otel_2_perfetto.py:294 | the gateway's spans, each 1000 ns shorter, in start order, equal starts in input order |
| `TraceMain.SmgIsDisjoint` | scripts/convert_otel_2_perfetto.py:294-308 | gateway spans of positive length in one lane share no instant |
| `TraceMain.ConvertTrace` | scripts/convert_otel_2_perfetto.py:444-458 | the whole conversion, for all inputs: when it fails; exactly one event for each span at or below a laid-out span, with its own start, its duration less 1000 ns and its process; the lanes of the greedy layout in start order, with ties as the sorts leave them; no two laid-out spans of a lane at one instant if no trimmed length is zero; every lane announced once; as few gateway lanes as possible |
| `MultiTurn.RoundsSumToRequests` | benchmark/hicache/bench_multiturn.py:263-267 | the clients per round add up to the number of requests |
| `MultiTurn.RoundsShrink` | benchmark/hicache/bench_multiturn.py:263-267 | the clients per round never grow |
| `MultiTurn.OnePendingStep` | benchmark/hicache/bench_multiturn.py:388-538 | every step of every thread keeps one pending request for each client that is due one, and none for others |
| `MultiTurnInvariants.PoolSuffices` | benchmark/hicache/bench_multiturn.py:292-303 | with the number of sub-questions asked for, the list is never empty when one is popped at line 486 |
| `MultiTurnInvariants.BarrierStep` | benchmark/hicache/bench_multiturn.py:517-538 | every step keeps the barrier invariant: where each client stands relative to the barrier's round, and what the counter counts |
| `MultiTurnRuns.RunInv` | benchmark/hicache/bench_multiturn.py:388-544 | every state of every interleaving satisfies all invariants: pending requests, counters, histories, sub-questions, barrier |
| `MultiTurnRuns.OneRequestPerClient` | benchmark/hicache/bench_multiturn.py:402-516 | in every reachable state an unfinished, unfailed client has exactly one request under way, equal to its present history; the pop never fails; 0 <= sent - completed <= the limit |
| `MultiTurnRuns.BuiltRequests` | benchmark/hicache/bench_multiturn.py:448-516 | every request built is the prompt followed by the recorded outputs and used sub-questions in turn, and a pending one is the last built |
| `MultiTurnHistory.AllAnswers` | benchmark/hicache/bench_multiturn.py:448-457 | in every run the outputs in a client's history, then those not yet read, are exactly what the client's request tasks returned, in order |
| `MultiTurnHistory.AllQuestions` | benchmark/hicache/bench_multiturn.py:484-504 | sub-questions are taken from the end of the list, each once, for the clients asked, in order |
| `MultiTurnHistory.AllSent` | benchmark/hicache/bench_multiturn.py:402-433 | what the sender takes for a client is what was built for it, in order, all but at most one not yet taken |
| `MultiTurnHistory.SentIsTalk` | benchmark/hicache/bench_multiturn.py:448-516 | in every run the k-th request sent for a client is its prompt followed, in turn, by the first k outputs that came back for it and the first k sub-questions it was given |
| `MultiTurnHistory.PrefixGrowth` | benchmark/hicache/bench_multiturn.py:448-516 | so every request sent for a client extends the earlier ones, strictly if no sub-question in the list is empty |
| `MultiTurnHistory.ResponsesInOrder` | benchmark/hicache/bench_multiturn.py:388-443 | responses are handled in the order in which the requests finished, none lost or doubled |
| `MultiTurnHistory.SentInOrder` | benchmark/hicache/bench_multiturn.py:193-204 | under the fifo policy, barrier or not, requests are sent in the order in which they were built |
| `MultiTurnRuns.BarrierSafety` | benchmark/hicache/bench_multiturn.py:517-538 | with the barrier, failures or not, everything under way belongs to one round, and every client of the rounds before has finished them |
| `MultiTurnRuns.BarrierPassed` | benchmark/hicache/bench_multiturn.py:517-538 | the barrier is past a round only when all its clients' responses have been handled, none of them a failure |
| `MultiTurnRuns.FailureStopsBarrier` | benchmark/hicache/bench_multiturn.py:444-447 | after one failed response the barrier never moves again |
| `MultiTurnRuns.WorkBounded` | benchmark/hicache/bench_multiturn.py:402-538 | the number of steps other than polling is bounded by the number of requests and clients |
| `MultiTurnRuns.NeverStuck` | benchmark/hicache/bench_multiturn.py:402-538 | until nothing is under way, some step that makes progress is possible |
| `MultiTurnRuns.EndWithBarrier` | benchmark/hicache/bench_multiturn.py:517-538 | with the barrier and no failure, when nothing is under way every client has finished: no round gets stuck |
| `MultiTurnRuns.EndWithoutBarrier` | benchmark/hicache/bench_multiturn.py:435-516 | without the barrier, when nothing is under way every client has finished or failed |
| `MultiTurnRuns.EndState` | benchmark/hicache/bench_multiturn.py:388-544 | at the end all rounds are done if and only if no response failed; the progress bar is full if and only if no request raised and every client was answered as often as it has rounds |
| `MultiTurnRuns.SenderExitSafe` | benchmark/hicache/bench_multiturn.py:414-415 | when the sender sees a full progress bar and stops, nothing is ready, in flight or held back |
| `MultiTurnThreads.ReadyQueue.constructor` | benchmark/hicache/bench_multiturn.py:188-191 | the queue starts with the given requests and policy |
| `MultiTurnThreads.ReadyQueue.Append` | benchmark/hicache/bench_multiturn.py:193-195 | appending adds at the end |
| `MultiTurnThreads.ReadyQueue.Take` | benchmark/hicache/bench_multiturn.py:197-204 | popping returns nothing exactly when empty, else removes the first or the drawn request and keeps the others in order |
| `MultiTurnThreads.ClientsPerRound` | benchmark/hicache/bench_multiturn.py:263-266 | the list computed counts, for each round, the clients with more rounds than that |
| `MultiTurnThreads.WorkloadGenerator.constructor` | benchmark/hicache/bench_multiturn.py:255-355 | the generator starts in the initial state of the step system |
| `MultiTurnThreads.WorkloadGenerator.CheckLimit` | benchmark/hicache/bench_multiturn.py:405 | the sender's test is the enabling condition of its step |
| `MultiTurnThreads.WorkloadGenerator.SendOne` | benchmark/hicache/bench_multiturn.py:406-409 | the sender's pop and count are an enabled step |
| `MultiTurnThreads.WorkloadGenerator.FinishRequest` | benchmark/hicache/bench_multiturn.py:388-400 | a finished, refused or raising request puts one response into the queue; a raising one leaves the progress bar |
| `MultiTurnThreads.WorkloadGenerator.RecordResponse` | benchmark/hicache/bench_multiturn.py:444-482 | recording a response is the step of that name, failure branch included |
| `MultiTurnThreads.WorkloadGenerator.QueueNext` | benchmark/hicache/bench_multiturn.py:484-516 | building the next request is the step of that name; the uncaught error is its crash |
| `MultiTurnThreads.WorkloadGenerator.CountAtBarrier` | benchmark/hicache/bench_multiturn.py:518-526 | counting at the barrier is the step of that name |
| `MultiTurnThreads.WorkloadGenerator.ReleaseRound` | benchmark/hicache/bench_multiturn.py:534-538 | the release loop moves all held requests to the ready queue in order and advances the barrier |
| `MultiTurnThreads.ReleaseIsSteps` | benchmark/hicache/bench_multiturn.py:534-538 | the release in one go is the composition of its single appends |
| `MultiTurnThreads.WorkloadGenerator.HandleResponse` | benchmark/hicache/bench_multiturn.py:439-538 | one uninterrupted turn of the handler is a composition of steps |
| `Requeue.StepSafe` | benchmark/hicache/bench_serving.py:99-116 | a started turn always exists, and a put always finds room in the bounded queue |
| `Requeue.RunInv` | benchmark/hicache/bench_serving.py:172-190 | in every run each conversation is queued, started, done or failed, exactly one of them; turns go out in order, at most once; messages alternate; the concurrency limit holds; no put waits |
| `Requeue.NeverStarved` | benchmark/hicache/bench_serving.py:263-283 | without failures, while turns are left to yield there is one queued or one on its way |
| `RequeueHistory.PostsAreTurns` | benchmark/hicache/bench_serving.py:99-116 | in every run the k-th post of a conversation has its first k + 1 prompts with the first k replies that came for it between them |
| `RequeueHistory.StepsBounded` | benchmark/hicache/bench_serving.py:263-283 | every run ends: at most three steps for each turn and one for a timeout |
| `RequeueHistory.GoesOn` | benchmark/hicache/bench_serving.py:398-493 | something can happen if and only if a task is not over, or turns are left and the wait has not timed out |
| `RequeueHistory.RoundRobin` | benchmark/hicache/bench_serving.py:186-190 | conversations are taken first in, first out: all of them, then in the order in which they were put back |
| `RequeueHistory.EveryTurnOnce` | benchmark/hicache/bench_serving.py:460-493 | without failures, when all yields are made and all tasks over, every turn has been posted once, in order, and has its reply, and the messages are the prompts and the replies that came, in turn |
| `Requeue.Serving.constructor` | benchmark/hicache/bench_serving.py:414-471 | the queue holds every conversation once, sized to their number |
| `Requeue.CountTurns` | benchmark/hicache/bench_serving.py:414 | the number of yields is the number of turns of all conversations |
| `Requeue.Serving.TakeNext` | benchmark/hicache/bench_serving.py:263-283 | a yield starts one task and keeps the invariant |
| `Requeue.Serving.StartTurn` | benchmark/hicache/bench_serving.py:99-116 | a task appends its turn's prompt and posts the conversation so far |
| `Requeue.Serving.CompleteTurn` | benchmark/hicache/bench_serving.py:172-197 | the reply is appended as it came and the conversation put back or done; a failed one is not put back |
| `Redirects.RingNeverEnds` | benchmark/line_retrieval/gen_data.py:66-75 | coming back to a line already visited means that no redirect leads to a line with a value |
| `Redirects.ChainDistinct` | benchmark/line_retrieval/gen_data.py:66-75 | a chain that ends visits no line twice |
| `Redirects.Chase` | benchmark/line_retrieval/gen_data.py:63-75 | the chase ends on every redirect map; it gives a chain exactly when the line resolves, and then the exact chain to its end |
| `Redirects.BuildLinks` | benchmark/line_retrieval/gen_data.py:56-77 | the ring set is exactly the lines that never reach a value; every other line gets its exact chain and, although values are overwritten on the way, its end's original value |
| `Redirects.GroupByHoops` | benchmark/line_retrieval/gen_data.py:79-83 | a group holds, in order, exactly the resolved lines with that many hoops, and exists only if there are any |
| `LineQueries.ReadFollows` | benchmark/line_retrieval/bench_sglang.py:41-54 | reading the shown lines hop by hop follows the redirects, as long as the chain is within what is shown |
| `LineQueries.GenerateLines` | benchmark/line_retrieval/gen_data.py:45-83 | the generated data has the lines of the redirect map with resolved values, chains and groups |
| `LineQueries.SelfContained` | benchmark/line_retrieval/bench_sglang.py:41-54 | for every filtered query the label is the value found by following redirects in the truncated body alone |
| `LineQueries.QueriesExact` | benchmark/line_retrieval/bench_sglang.py:41-46 | the filtered list holds, in increasing order, exactly the earlier lines that resolve in that many hoops within the shown lines |
| `LineQueries.SplitBody` | benchmark/line_retrieval/bench_sglang.py:54-62 | the four parts concatenate back to the body, the first three of equal length |
| `LineQueries.PickIndex` | benchmark/line_retrieval/bench_sglang.py:47-49 | the chosen position is the truncated percentage, or the last one if that is too large |
| `LineQueries.MakeQuery` | benchmark/line_retrieval/bench_sglang.py:41-66 | a query fails exactly when no line passes the filter; otherwise it asks about the passing line with exactly min(int(n * percent), n - 1) passing lines before it, its label is that line's resolved value, the four parts make up the first src + 1 lines, and the label can be read from them |
| `FixFracs.SplitClean` | benchmark/reasoning_benchmark/answer_extraction.py:9 | splitting at `\frac` leaves pieces without it that join back to the string |
| `FixFracs.JoinSplit` | benchmark/reasoning_benchmark/answer_extraction.py:9-36 | joining pieces without `\frac` and splitting again returns the pieces: the command never arises across a joint |
| `FixFracs.BraceClean` | benchmark/reasoning_benchmark/answer_extraction.py:14-35 | added braces never make a new `\frac` |
| `FixFracs.FixedPieces` | benchmark/reasoning_benchmark/answer_extraction.py:8-37 | after fixing, every command is followed by a brace if and only if every piece was long enough to fix; otherwise the string comes back as it was |
| `FixFracs.FixedArguments` | benchmark/reasoning_benchmark/answer_extraction.py:13-35 | read with TeX's matching of braces, a piece that was bare now starts with its first character as one group and its second as another (or goes on from its own brace), with the rest untouched, if and only if neither character is a closing brace; a braced piece is unchanged |
| `FixFracs.ClosingBraceMisread` | benchmark/reasoning_benchmark/answer_extraction.py:22-29 | a concrete piece whose first argument reads as empty |
| `FixFracs.Idempotent` | benchmark/reasoning_benchmark/answer_extraction.py:8-37 | fixing twice is fixing once, for every string |
| `FixFracs.OnlyBraces` | benchmark/reasoning_benchmark/answer_extraction.py:8-37 | with all braces removed, input and output are the same string |
| `FixFracs.Fix` | benchmark/reasoning_benchmark/answer_extraction.py:8-37 | the loop computes the fixed string, with its early return |
| `UserMix.InsertKeepsOrderIff` | benchmark/hicache/bench_mix.py:259-267 | an insertion keeps the queue in start order if and only if the newcomer is no later than the last entry |
| `UserMix.LateUserOvertakes` | benchmark/hicache/bench_mix.py:259-267 | users due at 1 and 2 come out in the order 2, 1 |
| `UserMix.PickRounds` | benchmark/hicache/bench_mix.py:199-207 | the draw picks the first cumulative ratio above it, else the last |
| `UserMix.UserGenerator.constructor` | benchmark/hicache/bench_mix.py:147-193 | counts start balanced, with no user |
| `UserMix.UserGenerator.Generate` | benchmark/hicache/bench_mix.py:195-227 | a new user is counted once by rounds and once at round 0, and the balance is kept |
| `UserMix.UserGenerator.Take` | benchmark/hicache/bench_mix.py:269-276 | the head of the queue is taken exactly if it is due, else a new user is made, and the balance is kept |
| `UserMix.UserGenerator.Push` | benchmark/hicache/bench_mix.py:229-267 | after any calls on users in flight, for each round, users in less users out are those queued or in flight at that round; user counts sum to the ids given out; queued users have rounds left |
| `UserMix.UserGenerator.InsertUser` | benchmark/hicache/bench_mix.py:259-267 | the insertion loop puts the user before the first later entry among all but the last, else before the last |
| `WheelIndex.PageRoundTrip` | scripts/update_nightly_whl_index.py:79-150 | reading the written page back returns exactly the links |
| `WheelIndex.LinkRoundTrip` | scripts/update_nightly_whl_index.py:91-121 | the file name read from a generated link is the wheel's own |
| `WheelIndex.HrefRoundTripIff` | scripts/update_nightly_whl_index.py:97-98 | a generated link leads to the wheel's address if and only if that has no quote in it |
| `WheelIndex.PageLines` | scripts/update_nightly_whl_index.py:144-150 | line by line the page is the document type, the heading, and the links |
| `WheelIndex.UniqueNames` | scripts/update_nightly_whl_index.py:109-121 | no file name comes twice in the merged list |
| `WheelIndex.UniqueConcat` | scripts/update_nightly_whl_index.py:109-121 | merging a concatenation is merging its parts, the second one knowing the names of the first |
| `WheelIndex.AfterIsMerge` | scripts/update_nightly_whl_index.py:79-121 | merging run by run is merging all runs at once, latest first |
| `WheelIndex.RepeatChangesNothing` | scripts/update_nightly_whl_index.py:79-121 | repeating the last run changes nothing |
| `WheelIndex.IndexHoldsLatest` | scripts/update_nightly_whl_index.py:79-121 | after any runs each published name is in the index once, with its most recent link, which leads to that wheel's address |
| `WheelIndex.Update` | scripts/update_nightly_whl_index.py:79-150 | an update without wheels fails; otherwise it writes the page of the merged links |
| `WheelIndex.PageAfterRun` | scripts/update_nightly_whl_index.py:79-150 | run after run on the same file, the page holds the index of all runs so far |
| `ChatFilter.Process` | benchmark/hicache/data_processing.py:56-84 | the inner loop returns, in order, exactly the turns within the four bounds, with the fixed output length if there is one, and adds exactly their lengths |
| `ChatFilter.PassTakes` | benchmark/hicache/data_processing.py:53-87 | going once over the dataset takes the eligible conversations in order, as many as are wanted |
| `ChatFilter.PassStuckIff` | benchmark/hicache/data_processing.py:52-87 | the outer loop makes no progress, and never ends, if and only if no conversation keeps a turn |
| `ChatFilter.OnePass` | benchmark/hicache/data_processing.py:53-87 | the loop over the dataset is such a pass and keeps the token totals exact |
| `ChatFilter.CommonFilterChat` | benchmark/hicache/data_processing.py:47-91 | if something is eligible it returns exactly the number asked for, entry k being the (k mod m)-th of the m eligible conversations, and the totals are the sums over what is returned |
| `ChatFilter.CyclicNonEmpty` | benchmark/hicache/data_processing.py:85-87 | no returned conversation is empty, which the re-queue needs |

## Left out

- TraceConvert.Converter.GatherOne: duration events only; instant events and flow links that hang on a span are not modelled.
- TraceMain.ConvertTrace: the order of the events in the file, process-name records and the division of times by 1000 are not modelled; a missing attribute, which raises in the program, is excluded by the shape of the parsed spans.
- TraceMain.SortSmg: gateway spans have no children in the model. The program reads a child list that only engine spans are given (line 225) and would raise.
- LaneGraph.Graph.FindLine: the nested dictionary is one map keyed by process and lane number, with the number of lanes per process beside it.
- MultiTurnRuns.RunInv: assumes that the sampling function returns at least as many sub-questions as asked for; that function is not part of this model.
- MultiTurnThreads.ReadyQueue.Take: a policy other than random and fifo, which raises, is not modelled.
- Requeue.RunInv: assumes that no conversation is empty, as the loaders ensure; for an empty one the model has the program's crash.
- LineQueries.MakeQuery: the percentage is a real number, not a float.
- The OpenAI message format of the multi-turn workload, its metrics, heartbeats, sleeps and the distribution of send times.
- Warm-up request, streaming and token bookkeeping of the serving benchmark.
- Random draws, few-shot suffix and text of the line-retrieval prompts.
- Token statistics of the user mix, and users whose request failed, which stay counted as in flight.
- The root page, hashing and file access of the wheel index.
- `extract_boxed_answers`, the other string repairs and the repeat-and-truncate step of `sample_random_requests`: they would add easy members.
- The serving engine, its scheduler and cache, the gateway, the kernels and their benchmarks.
