# Verified models of the MindRouter tools

This project models the stateful and numeric cores of the MindRouter repository in Dafny and proves what they
promise:

- the dynamic GPU batcher of the DLP service: queues, batches, futures and counters, on objects (`Replicas`,
  `Routing`), as a specification with its laws (`Batching`, `BatchingLaws`) and as an interleaved state
  machine (`ServiceRuns`) with its progress and its refinement of the specification (`ServiceProgress`);
- the OpenAI-to-Anthropic stream translator (`AnthropicStream`), its output grammar (`StreamGrammar`,
  `StreamShape`), the preservation of content, calls and usage (`StreamContent`, `StreamCalls`), the order of
  its closing events (`StreamStops`) and its dependence on chunk boundaries (`StreamChunking`);
- the proportional sample allocation of the usage audit (`UsageMerge`, `Allocation`, `AllocationLaws`);
- span matching, confusion counts, statistics and the threshold sweep of the DLP harness (`Matching`,
  `MatchingLaws`, `Metrics`, `MetricLaws`, `RateLaws`, `Percentiles`, `ThresholdSweep`);
- the adaptive capacity sweep and the line framing of the benchmarks (`CapacitySweep`, `CapacitySweepLaws`,
  `SseFraming`);
- the job manager of the video worker (`VideoWorker`, `JobRuns`, `JobOutcomes`);
- check digits, labelled documents, and the snapshot, drain, purge and restore protocol of the end-to-end runs
  (`CheckDigits`, `DocBuilder`, `ConfigStore`, `ConfigCleanup`, `RunOrder`, `Drain`).

`Options`, `Sequences`, `Sorting`, `StableSort` and `Arithmetic` are shared. Code that works by updating state
is modelled by methods and classes; each is proved equal to a function on values or against a declared
property, and the laws are lemmas about those.

`dafny verify dfyconfig.toml` checks the whole project.

## Where the code promises less than one might expect

- **Stream translator.** A whole message comes out if and only if the input is *disciplined*: no reasoning
  while a text block is open, every run of reasoning followed by text before a new tool call, the finish or
  the end, and nothing that says anything after the finish line within its own chunk
  (`StreamShape.WellFormedOutput`). `StreamShape.MalformedMessages` gives an input for each way to break it.
- **Chunk boundaries.** `finished` is looked at once per chunk, not once per line, so regrouping whole lines
  is harmless if and only if the finish line is the last that says anything
  (`StreamChunking.RegroupingLines`).
- **Adaptive sweep.** Adapting with `--repeats` below 1 ends in the maximum of an empty set, as does an empty
  list of stages (`CapacitySweep.AdaptiveSweep`). A capacity of 0 users never starts a bisection.
- **Check digits.** For a body of odd length `_ean_check_digit` gives a digit that is valid only if it is 0 or
  5. The ABA and EAN checksums miss exchanged neighbours that are five apart; the Luhn formula misses only 0
  and 9.
- **Reversible transforms.** Removing the inserted character restores the text if and only if the text did not
  contain that character before (`DocBuilder.TransformUndone`).

## Model

| member | source | states |
|---|---|---|
| `BatchingLaws.BatchingRefinesAlone` | dlp_service/server.py:334-390 | Batching refines scanning alone: for a model that scores each text by itself, a request that gets a result in any mixed batch gets the same findings in a batch holding nothing else, if the model answers that one call; both describe the score of its own text, entity by entity |
| `BatchingLaws.BatchLaw` | dlp_service/server.py:303-390 | The fate of one request in a whole iteration: done stays done; every pending future is done afterwards whether the load fails, the model raises, returns too little or returns rubbish; it is what its own group's call owes it, or the failure of the whole batch after a breakdown; and a result describes, field by field, the entities returned at its own position |
| `BatchingLaws.BatchCompletes` | dlp_service/server.py:325-390 | An iteration leaves no request of its batch pending, whatever the model, the other replicas and the callers do meanwhile |
| `BatchingLaws.GroupsLaw` | dlp_service/server.py:351-390 | After the first n groups a request has its answer if its own group is among them, is cancelled if its caller gave up, and otherwise still waits |
| `BatchingLaws.GroupLaw` | dlp_service/server.py:351-390 | The call of one group touches the pending requests of that group only, and completes each of them |
| `BatchingLaws.OutcomeLaw` | dlp_service/server.py:357-390 | What one model outcome does to one request: error, missing result, converted findings, or nothing |
| `BatchingLaws.SettleLaw` | dlp_service/server.py:370-390 | Each pending request of a group is completed by its own position in the results, up to the first entity that cannot be converted |
| `BatchingLaws.ResultsAreScores` | dlp_service/server.py:334-390 | However a batch is mixed, a result in it has one finding for each entity of the score of the request's own text, labels and threshold, in order, with the entity's label, text, score and offsets or their stand-ins |
| `BatchingLaws.ResultsAreOwn` | dlp_service/server.py:334-390 | For any model and however the iteration ends: a result has one finding for each entity that the call of the request's own group returned at its own position, field by field, with its waiting times and the size of the group |
| `BatchingLaws.BreakdownMeans` | dlp_service/server.py:325-390 | An iteration breaks down if and only if some call returns an entity that cannot be converted in the entry of a request that still waits |
| `BatchingLaws.RuinedFails` | dlp_service/server.py:325-390 | Such a request ends with the failure of the batch, and never with a result |
| `Batching.ConversionIs` | dlp_service/server.py:188-205 | The conversion of an entry fails if and only if some entity is malformed; otherwise finding j carries the label, text, score and offsets of entity j, or unknown, empty and zero where absent |
| `BatchingLaws.ScanKeepsNewest` | dlp_service/server.py:156-165 | A scan adds its latency; the window holds the newest latencies in order, at most 4096 |
| `Batching.MembersOf` | dlp_service/server.py:347-349 | The members of a group are exactly the requests of the batch with that key |
| `Batching.KeyHasMembers` | dlp_service/server.py:347-349 | A key is in the dictionary if and only if its group is not empty |
| `Batching.KeysOf` | dlp_service/server.py:347-349 | Every request has a key in the dictionary, and no key occurs twice |
| `Replicas.GroupRequests` | dlp_service/server.py:347-349 | The dictionary loop gives the keys in order of first occurrence and each group in batch order |
| `Replicas.StampQueued` | dlp_service/server.py:352-356 | Every request of the group gets its waiting time, and no future changes |
| `Replicas.SetExceptions` | dlp_service/server.py:340-342 | Exactly the futures that are still pending get the exception |
| `Replicas.ResolveOne` | dlp_service/server.py:370-390 | One turn of the result loop is the specified step; it breaks down if and only if the request waits and its entry holds a malformed entity, and otherwise hands out the findings of its entry, field by field |
| `Replicas.ResolveGroup` | dlp_service/server.py:370-390 | The result loop on the objects settles the group as specified, up to the first entity that cannot be converted |
| `Replicas.FinishGroup` | dlp_service/server.py:357-390 | What follows a model call on the objects is the specified outcome step |
| `Replicas.RunGroup` | dlp_service/server.py:351-390 | One group with its awaited model call, during which callers give up and others use the shared counters, is the specified group step |
| `Replicas.ProcessGroups` | dlp_service/server.py:351-390 | All groups in turn are the specified run over the groups |
| `Replicas.RunBatch` | dlp_service/server.py:325-390 | A whole iteration on request objects and shared counters, with whatever others do during its awaits, is the specified iteration; every result handed out describes, field by field, the entities returned for that request |
| `Replicas.Replica.Enqueue` | dlp_service/server.py:238-240 | The queue grows by the request at its end, or the queue was full and stays as it is |
| `Replicas.Replica.CollectBatch` | dlp_service/server.py:303-322 | Batch and remaining queue are the old queue and exactly the arrivals of the waits that took place, in order; each wait but the last went on because a request came in time; the batch has between one and max_batch requests |
| `Replicas.Stats.RecordBatch` | dlp_service/server.py:158-160 | One batch and its size are counted |
| `Replicas.Stats.RecordScan` | dlp_service/server.py:162-165 | One scan is counted and its latency kept in a bounded window |
| `Replicas.ModelManager.PickReplica` | dlp_service/server.py:420-425 | The chosen replica and the next turn are those of the routing specification |
| `Replicas.ModelManager.EnqueueAt` | dlp_service/server.py:238-240 | Only the chosen queue changes, and only if it has room |
| `Replicas.ModelManager.Submit` | dlp_service/server.py:439-463 | A submission puts the request at the end of the picked queue or is counted as rejected, and changes nothing else |
| `Routing.RejectsOnlyAtCapacity` | dlp_service/server.py:420-455 | A submission is turned away if and only if every replica queue is full |
| `Routing.Balanced` | dlp_service/server.py:420-455 | After k submissions into empty queues all wait until the total capacity is reached and never more; each depth is the floor or ceiling of the average; the next is turned away exactly at capacity |
| `Routing.SteadyStep` | dlp_service/server.py:420-455 | A submission keeps the depths within one of each other and within the queue size |
| `Routing.TiesGoRound` | dlp_service/server.py:420-425 | Among equally short queues no replica is picked again before all others have been |
| `ServiceRuns.RunsAreSafe` | dlp_service/server.py:303-462 | In every run, after every event: each accepted request is in exactly one queue, one batch or among the retired, once; retired requests are done; queues and batches keep their bounds; scans <= summed batch sizes <= max(1, max_batch) * batches |
| `ServiceRuns.ConservedStep` | dlp_service/server.py:303-462 | No event loses or duplicates a request |
| `ServiceRuns.CompletingStep` | dlp_service/server.py:303-390 | No event leaves a retired request pending, or a pending one in a group whose call has returned |
| `ServiceRuns.CountedStep` | dlp_service/server.py:146-165 | Every event keeps the inequalities between the counters |
| `ServiceRuns.CallsCanReturn` | dlp_service/server.py:334-390 | A pending model call can always return: its batch and its groups are still there |
| `ServiceRuns.DoneForever` | dlp_service/server.py:340-388 | A completed future never changes again, in any run |
| `ServiceRuns.RejectedOnlyAtCapacity` | dlp_service/server.py:439-455 | At any point of any run a submission is turned away if and only if every queue is full |
| `ServiceRuns.RunsAreFaithful` | dlp_service/server.py:303-390 | In every run of a pointwise model every result handed out is the request's own score |
| `ServiceProgress.CompletesInBoundedSteps` | dlp_service/server.py:303-390 | Progress: an accepted request is done after a bounded number of events of its own replica, (queue size + 1) times those of the longest batch, whatever happens in between |
| `ServiceProgress.CanMove` | dlp_service/server.py:303-390 | A replica that holds a request, in its queue or in a batch, always has a next event |
| `ServiceProgress.OwnEventNearer` | dlp_service/server.py:303-390 | Every event of its replica brings a waiting request nearer to the end of its batch |
| `ServiceProgress.OtherEventKeeps` | dlp_service/server.py:303-462 | No event of another replica or caller sets a waiting request back |
| `ServiceProgress.AcceptedIsSomewhere` | dlp_service/server.py:439-462 | An accepted request whose batch is not over is with some replica |
| `ServiceProgress.SubmitIsRouting` | dlp_service/server.py:420-455 | A submission in a run is the routing step: same queue depths, same turn, accepted if and only if routing does not reject |
| `ServiceProgress.OtherEventIsMeanwhile` | dlp_service/server.py:334-390 | For a batch that awaits its model, any other event is nothing but callers giving up and counters changing |
| `ServiceProgress.CallIsGroup` | dlp_service/server.py:351-390 | The return of a model call in a run does to its batch what the batch specification says of that group |
| `ServiceProgress.EventRefinesGroup` | dlp_service/server.py:351-390 | An await of the batch loop between two states of a run, with what others did meanwhile, is one group step of the batch specification |
| `StreamShape.WellFormedOutput` | backend/app/api/anthropic_api.py:143-345 | The grammar theorem: the output is one whole message, with indices 0, 1, 2, ..., deltas in open blocks of their kind, every block stopped, one message_delta and one message_stop at the end, if and only if the input is disciplined |
| `StreamGrammar.OutputGrammar` | backend/app/api/anthropic_api.py:143-345 | The same for a one-pass acceptor, in both directions and for every input |
| `StreamShape.ConformsMeans` | backend/app/api/anthropic_api.py:143-345 | The acceptor accepts exactly the whole messages as declared position by position |
| `StreamShape.EachBlockOnce` | backend/app/api/anthropic_api.py:143-345 | In a whole message no index is started twice and no block is stopped twice |
| `StreamShape.MalformedMessages` | backend/app/api/anthropic_api.py:206-345 | Five concrete inputs whose output is no whole message: reasoning followed directly by a tool call, the finish or the end; reasoning inside text; content after the finish line of its chunk |
| `StreamGrammar.FinishCheck` | backend/app/api/anthropic_api.py:294-326 | The finish sequence is accepted if and only if no thinking block is open |
| `StreamGrammar.ToolStopsClose` | backend/app/api/anthropic_api.py:304-309 | Stopping the tool blocks closes exactly these |
| `StreamGrammar.SimChunks` | backend/app/api/anthropic_api.py:168-326 | After every chunk the translator's variables, the acceptor and the input automaton agree |
| `StreamGrammar.BrokenStays` | backend/app/api/anthropic_api.py:168-326 | Once the input has broken the discipline nothing repairs the output |
| `StreamContent.ContentPreserved` | backend/app/api/anthropic_api.py:168-326 | The concatenated text, thinking and per-tool argument deltas equal the concatenated content, reasoning and argument fragments of the lines looked at |
| `StreamContent.KeptLines` | backend/app/api/anthropic_api.py:179-326 | The same after any number of lines, together with what the argument buffers hold |
| `StreamContent.ChunksAreLines` | backend/app/api/anthropic_api.py:168-179 | Chunks are their lines, except that nothing is looked at once a chunk has ended finished |
| `StreamContent.TokensCountContent` | backend/app/api/anthropic_api.py:241-241 | The running token count is the number of lines with content |
| `StreamContent.UnfinishedUsage` | backend/app/api/anthropic_api.py:328-345 | A stream without a finish reason ends with end_turn and the count of its content lines |
| `StreamStops.StopsAscend` | backend/app/api/anthropic_api.py:294-345 | Right before each message_delta stand, and nothing else, the stop of the last text block if there was content since the last new call, and then one stop for the block of each call so far, in strictly ascending order of the call index; for every finish line looked at and for the unfinished end |
| `StreamCalls.CallsAreNamed` | backend/app/api/anthropic_api.py:250-292 | The tool block starts of the output are exactly those of the calls, in order of first occurrence, each once, with the index of the call's block and the id and name of its first delta |
| `StreamCalls.FirstDeltasDiffer` | backend/app/api/anthropic_api.py:250-270 | The first deltas are of different calls |
| `StreamCalls.UsageIsBilled` | backend/app/api/anthropic_api.py:294-345 | The reported usage: for each finish line looked at its completion tokens or else the content lines so far, and for an unfinished stream the content lines |
| `StreamChunking.RegroupingLines` | backend/app/api/anthropic_api.py:168-326 | Whole lines give the same events in every cut into chunks if and only if no line after the first finish line says anything |
| `StreamChunking.ChunksDoNotMatter` | backend/app/api/anthropic_api.py:168-326 | For such lines any cut gives the events of the uncut input |
| `StreamChunking.NoisyTranslation` | backend/app/api/anthropic_api.py:168-326 | For other lines one line to a chunk gives different events than one chunk |
| `AnthropicStream.Translator.HandleReasoning` | backend/app/api/anthropic_api.py:206-220 | The generator's branch on reasoning is the specified state change |
| `AnthropicStream.Translator.HandleContent` | backend/app/api/anthropic_api.py:222-246 | The generator's branch on content is the specified state change |
| `AnthropicStream.Translator.HandleTool` | backend/app/api/anthropic_api.py:250-292 | One tool delta is the specified state change |
| `AnthropicStream.Translator.CloseBlocks` | backend/app/api/anthropic_api.py:297-309 | Text block and tool blocks are stopped, the latter in order of the call index |
| `AnthropicStream.Translator.Feed` | backend/app/api/anthropic_api.py:168-326 | One chunk is the specified state change |
| `AnthropicStream.Translator.End` | backend/app/api/anthropic_api.py:328-345 | The end of the stream is the specified closing |
| `AnthropicStream.StreamEvents` | backend/app/api/anthropic_api.py:127-345 | The generator yields exactly the events of the specification the theorems speak about, StreamShape.WellFormedOutput and StreamStops.StopsAscend among them |
| `UsageMerge.MergeUserCounts` | scripts/usage_audit_by_user.py:331-370 | One entry per user of either database with its counts, largest first, and the requests add up to both databases' totals |
| `UsageMerge.AuditFits` | scripts/usage_audit_by_user.py:855-897 | From the merged counts through the allocation, neither database is asked for more of a user's requests than it holds |
| `Allocation.Guarantee` | scripts/usage_audit_by_user.py:381-388 | Everyone holds the guarantee, and the rest of the budget is known |
| `Allocation.Proportion` | scripts/usage_audit_by_user.py:390-403 | Everyone holds guarantee plus capped floor of the proportional share |
| `Allocation.DistributeLeftover` | scripts/usage_audit_by_user.py:405-418 | The largest users with room hold one more, as many as the leftover allows |
| `Allocation.AllocateSamples` | scripts/usage_audit_by_user.py:373-420 | The three loops give the allocation that the following laws speak about |
| `AllocationLaws.TotalIsExact` | scripts/usage_audit_by_user.py:373-420 | The samples sum to min(max(budget, sum of guarantees), sum of requests) |
| `AllocationLaws.SharesAreProportional` | scripts/usage_audit_by_user.py:381-418 | Everyone gets between the guarantee and the requests; beyond the guarantee, the floor of the capped proportional share or one more |
| `AllocationLaws.LargerNeverGetsFewer` | scripts/usage_audit_by_user.py:390-418 | A user with strictly more requests never gets fewer samples |
| `AllocationLaws.RoundingLoss` | scripts/usage_audit_by_user.py:396-403 | Rounding down loses less than one unit per user with room, so the leftover can be handed out one by one |
| `AllocationLaws.AllServed` | scripts/usage_audit_by_user.py:390-403 | A budget that covers everything serves everyone in full |
| `AllocationLaws.BaseTotal` | scripts/usage_audit_by_user.py:381-418 | Base allocation and usable leftover add up to the promised total |
| `AllocationLaws.SourcesSuffice` | scripts/usage_audit_by_user.py:887-897 | The rounded split of a user's samples never asks a database for more than it holds |
| `AllocationLaws.SplitIsProportional` | scripts/usage_audit_by_user.py:887-897 | The part from the main database differs from the exact proportional share by at most one half, and is even on a tie; without an archive it is everything |
| `Matching.MatchOne` | dlp_harness/matching.py:134-159 | The inner loop gives the entity's match and adds exactly the indices of its hits |
| `Matching.MatchEntities` | dlp_harness/matching.py:133-159 | A finding is consumed if and only if it hits some entity, and correct if and only if it hits one of its own category |
| `Matching.CollectFalsePositives` | dlp_harness/matching.py:164-174 | False positives are the findings that hit nothing, in order; trap hits are the traps they overlap |
| `Matching.MatchDocument` | dlp_harness/matching.py:118-192 | The loops give the declared evaluation of the document, which MatchingLaws.EvaluationMeans puts in text positions |
| `MatchingLaws.EvaluationMeans` | dlp_harness/matching.py:90-192 | An entity is matched, by these scanners, with this confidence and category, if and only if such findings touch it; false positives are exactly the findings that touch no entity, mislabeled those that touch others' categories only; traps are hit by false positives that share positions with them |
| `MatchingLaws.OverlapsMeans` | dlp_harness/matching.py:90-98 | The arithmetic on offsets holds if and only if finding and span have a text position in common and, under a threshold, at least that part of the positions that either covers |
| `MatchingLaws.TouchingPosition` | dlp_harness/matching.py:90-98 | Without a threshold a finding with a span hits an entity if and only if some position lies in both |
| `MatchingLaws.HitsMeans` | dlp_harness/matching.py:101-112 | A finding without a span hits if and only if one text occurs in the other, both not empty, or it has the category of an entity that is the only one of that category |
| `Matching.FatesPartition` | dlp_harness/matching.py:161-174 | Category-correct, mislabeled and false-positive findings together are all findings, each as often as it occurs |
| `Matching.StricterMatchesLess` | dlp_harness/matching.py:90-100 | Raising the overlap threshold only shrinks what is matched, per entity, scanner and category |
| `Matching.StricterFailsMore` | dlp_harness/matching.py:164-174 | Raising the overlap threshold only adds false positives |
| `Matching.FatesAndMatches` | dlp_harness/matching.py:133-174 | Findings and entities tell the same story: nothing is matched if and only if everything is a false positive |
| `Matching.BestConfidenceIsBest` | dlp_harness/matching.py:142-142 | The best confidence of an entity is an upper bound of its hits, and reached by one unless none is above zero |
| `Metrics.SpanConfusion` | dlp_harness/metrics.py:56-112 | Every cell and the overall row count exactly the detected and missed entities and the false positives of the scanned documents, in both modes; exactly the categories with something to count have a row |
| `Metrics.CellsAreCounts` | dlp_harness/metrics.py:79-105 | The dictionary that booked the log of increments holds the declared counts, per category and summed |
| `Metrics.AllBumpsCount` | dlp_harness/metrics.py:79-90 | The increments made for all documents add up to the declared counts |
| `Metrics.DocConfusion` | dlp_harness/metrics.py:119-133 | The four cells and the error count are the numbers of documents of each outcome, and partition the documents |
| `RateLaws.CellMeans` | dlp_harness/metrics.py:56-112 | The cells are the numbers of detected and missed entities and of claimed findings, as sizes of sets of positions summed over the scanned documents |
| `RateLaws.DocCountsMean` | dlp_harness/metrics.py:119-133 | The four document counts are the numbers of scanned documents that hold entities or not and are flagged or not |
| `RateLaws.RatesMean` | dlp_harness/metrics.py:33-40 | A precision p has p*(tp+fp) = tp and a recall r has r*(tp+fn) = tp, defined unless the population is empty; F1 is defined once something is detected and is 2tp/(2tp+fp+fn) |
| `MetricLaws.StrictCounts` | dlp_harness/metrics.py:56-112 | Both modes have the same tp + fn; strict mode has no more tp and no fewer fp |
| `MetricLaws.StrictNeverExceedsLenient` | dlp_harness/metrics.py:56-112 | Strict precision, recall and F1 never exceed the lenient ones where defined, per category and overall |
| `MetricLaws.MccSquare` | dlp_harness/metrics.py:138-147 | The squared numerator is at most the product of the four margins, with equality exactly for one-sided matrices |
| `MetricLaws.MccInUnitRange` | dlp_harness/metrics.py:138-147 | The coefficient lies in [-1, 1] |
| `RateLaws.MccMeans` | dlp_harness/metrics.py:138-147 | The coefficient is undefined exactly for an empty margin, 1 for a perfect and -1 for an always wrong matrix, and 0 exactly for equal products |
| `MetricLaws.AucInUnitRange` | dlp_harness/metrics.py:316-322 | The trapezoid area of points in the unit square, in any order, lies in [0, 1] |
| `MetricLaws.AreaExactOnLines` | dlp_harness/metrics.py:321-322 | For points on a line the area is the integral between the outer points |
| `RateLaws.AreaIsIntegral` | dlp_harness/metrics.py:316-322 | For defined points on a line, given in any order among undefined ones, the area is the integral from the least to the greatest x |
| `RateLaws.AreaDefined` | dlp_harness/metrics.py:316-320 | There is an area if and only if at least two points are defined |
| `MetricLaws.PointsSorted` | dlp_harness/metrics.py:318-318 | The points are permuted into ascending order |
| `Percentiles.PercentileBounds` | dlp_harness/metrics.py:329-343 | The percentile lies between minimum and maximum, and is these at 0 and 100 |
| `Percentiles.PercentileGrows` | dlp_harness/metrics.py:329-343 | The percentile never decreases in p |
| `Percentiles.PercentileIgnoresOrder` | dlp_harness/metrics.py:329-343 | The percentile depends on the values only, not on their order |
| `Percentiles.PercentileAtRank` | dlp_harness/metrics.py:337-342 | At a whole rank the percentile is the value of that rank |
| `Percentiles.LinearBetweenRanks` | dlp_harness/metrics.py:343-343 | Between neighbouring ranks the value is linear |
| `ThresholdSweep.MatchCorpus` | dlp_harness/matching.py:204-222 | Every document is evaluated with its own findings and error |
| `ThresholdSweep.Sweep` | dlp_harness/metrics.py:261-313 | One point per cutoff with the rates of the filtered corpus, the first point of highest F1, and both partial areas |
| `ThresholdSweep.FirstBest` | dlp_harness/metrics.py:300-301 | The first of the points with the highest defined F1, if there is one |
| `ThresholdSweep.RaisingShrinksSpans` | dlp_harness/metrics.py:281-286 | A higher cutoff detects no more entities and has no more false positives, per category and in both modes |
| `ThresholdSweep.RaisingFlagsFewer` | dlp_harness/metrics.py:281-287 | A higher cutoff flags no more documents of either kind, over the same populations |
| `ThresholdSweep.SweepIsMonotone` | dlp_harness/metrics.py:261-298 | Raising the cutoff never raises span recall, span false positives, document recall or false-positive rate, and never lowers specificity |
| `RateLaws.PointMeans` | dlp_harness/metrics.py:261-298 | Every point of a sweep holds the rates over the corpus scored with exactly the findings that the cutoff keeps: all of other scanners, and those of GLiNER whose confidence reaches it |
| `ThresholdSweep.SweepAreasInUnitRange` | dlp_harness/metrics.py:302-303 | Both partial areas of every sweep lie in [0, 1] |
| `CapacitySweep.CapacityVerdict` | chat_bench.py:1180-1199 | The verdict names the largest count up to which all pass, the first failing count, and whether one passes above it |
| `CapacitySweepLaws.VerdictUnique` | chat_bench.py:1180-1199 | The results determine the verdict |
| `CapacitySweepLaws.KneeIsBracket` | chat_bench.py:1180-1199 | Capacity and first failure are exactly the passing and failing neighbours among the tested counts |
| `CapacitySweep.AdaptiveSweep` | chat_bench.py:1273-1310 | For every oracle the loop ends; it crashes exactly without stages or adapting without repeats; otherwise every planned stage has run, each addition was the code's decision, and nothing is left to add |
| `CapacitySweep.TestedIsPlanned` | chat_bench.py:1275-1286 | With repeats the tested counts are the planned ones, without there are none |
| `CapacitySweepLaws.ExtensionsGrow` | chat_bench.py:1292-1300 | Each extension follows only passing stages and strictly grows the largest count, up to the ceiling |
| `CapacitySweepLaws.ExtensionFactor` | chat_bench.py:1297-1298 | An extension below the ceiling is one and a half times the largest count, rounded up |
| `CapacitySweepLaws.NoExtensionAfterFailure` | chat_bench.py:1292-1310 | After a failed stage there are no more extensions |
| `CapacitySweepLaws.AtMostTwoBisections` | chat_bench.py:1301-1310 | At most two bisections run |
| `CapacitySweepLaws.BisectionsHalve` | chat_bench.py:1301-1310 | Each bisection keeps capacity and first failure adjacent among the tested counts and cuts their gap to half, rounded up |
| `CapacitySweepLaws.PassingSweepReachesCeiling` | chat_bench.py:1295-1300 | A sweep without failure ends only at the ceiling or without users |
| `CapacitySweepLaws.FailingSweepBracketsKnee` | chat_bench.py:1301-1310 | A sweep with a bracket ends when the ends are close, adjacent or zero, or after two bisections |
| `CapacitySweepLaws.FarApartMeans` | chat_bench.py:1306-1306 | A bracket is bisected only while its ends are more than a factor of one and a quarter apart |
| `SseFraming.LineReader.Feed` | chat_bench.py:555-558 | One read hands on all complete lines in order; lines and buffer always rebuild the bytes, and the buffer holds no newline |
| `SseFraming.ReadAll` | chat_bench.py:534-558 | All reads together give the one splitting of the concatenated bytes |
| `SseFraming.SplitUnique` | chat_bench.py:555-558 | Every byte sequence splits in exactly one way |
| `SseFraming.SplitResumes` | chat_bench.py:555-558 | More bytes only add lines, and only the unfinished line matters for them |
| `SseFraming.ChunksDoNotMatter` | dlp_harness/load.py:413-420 | Readers that received the same bytes in any chunks handed on the same lines and payloads and hold back the same bytes |
| `SseFraming.PayloadsSurvive` | chat_bench.py:555-568 | Payloads sent as data lines come out in order and complete however the bytes are cut |
| `SseFraming.DataLineReadsBack` | chat_bench.py:559-566 | Stripping and the data prefix undo what a server sends |
| `SseFraming.ItemMeans` | chat_bench.py:559-566 | A line is skipped unless its first non-blank bytes are the data prefix; what is read is the rest without blanks around it, or the end mark |
| `VideoWorker.JobManager.Submit` | video-worker/worker.py:72-77 | Submitting is the specified event |
| `VideoWorker.JobManager.RequestCancel` | video-worker/worker.py:82-92 | Cancelling is the specified event; unknown ids are reported |
| `VideoWorker.JobManager.TakeNext` | video-worker/worker.py:102-114 | One iteration of the consumer up to the engine is the specified event |
| `VideoWorker.JobManager.ReportProgress` | video-worker/worker.py:118-121 | The engine callback is the specified event |
| `VideoWorker.VideoJob.End` | video-worker/worker.py:132-144 | The job is completed with the duration and 100 percent, cancelled, or failed with the message, cut to 500 characters, as the engine returned, was cancelled or raised |
| `VideoWorker.JobManager.EndRun` | video-worker/worker.py:132-144 | Every way the engine ends is the specified event; the job shows it, and no job is current |
| `JobRuns.RunsAreGood` | video-worker/worker.py:72-144 | Every interleaving keeps the invariant |
| `JobRuns.AtMostOneInProgress` | video-worker/worker.py:111-144 | A job is in progress if and only if it is the current one, so at most one is |
| `JobRuns.TerminalForever` | video-worker/worker.py:82-144 | Completed, failed and cancelled jobs keep their result and are not started again, in every run |
| `JobRuns.CancelledInQueueNeverRuns` | video-worker/worker.py:82-109 | A job cancelled while queued never reaches the engine, whatever follows |
| `JobRuns.QueuedExactlyOnce` | video-worker/worker.py:72-109 | A queued job is in the queue exactly once, and nothing else is but cancelled jobs |
| `JobRuns.StartsInSubmissionOrder` | video-worker/worker.py:72-114 | Jobs start in submission order, each at most once |
| `JobRuns.TakesFirstUncancelled` | video-worker/worker.py:102-110 | The consumer skips exactly the cancelled jobs, and the next to start was queued |
| `JobRuns.QuietMeansDone` | video-worker/worker.py:72-144 | When nothing is queued or running every job has ended |
| `JobOutcomes.StatusMeans` | video-worker/worker.py:72-144 | Over every run: completed if and only if the engine of the job returned, failed if and only if it raised, cancelled if and only if it was cancelled or the job was cancelled while queued |
| `JobOutcomes.EngineDecides` | video-worker/worker.py:132-144 | However a run goes on, a job shows how its engine ended: duration and 100 percent, cancelled, or the message |
| `JobOutcomes.FinishMeans` | video-worker/worker.py:132-144 | Right after the engine ended its job shows how, no other job has changed, and none is current |
| `JobOutcomes.CancelMeans` | video-worker/worker.py:82-92 | A cancellation marks the job, ends a queued one at once, and changes nothing else |
| `JobOutcomes.ProgressMeans` | video-worker/worker.py:118-121 | A report shows step and total and the share done in percent, zero without a total |
| `JobRuns.MockGenerate` | video-worker/engine.py:66-77 | The first positive cancel check ends the mock run after exactly the steps before it; without one all steps are reported, and the run ends with the duration or with the failure to write the file |
| `CheckDigits.LuhnTotal` | dlp_harness/generators.py:60-84 | The loop from the right computes the weighted digit sum |
| `CheckDigits.LuhnCheckDigit` | dlp_harness/generators.py:60-69 | The result is the one digit that completes the number, or the error on a non-digit |
| `CheckDigits.CheckLuhn` | dlp_harness/generators.py:72-84 | The answer is Luhn validity, false for non-digits and short strings |
| `CheckDigits.LuhnMeans` | dlp_harness/generators.py:60-84 | The weighted sum adds, from the right, each digit and the digit sum of the double of each second digit |
| `CheckDigits.AbaMeans` | dlp_harness/generators.py:90-93 | A routing number is valid if and only if 3(d1+d4+d7) + 7(d2+d5+d8) + d3+d6+d9 is a multiple of ten |
| `CheckDigits.EanMeans` | dlp_harness/generators.py:295-297 | The article number sum counts even positions once and odd positions three times |
| `CheckDigits.LuhnDigitUnique` | dlp_harness/generators.py:60-84 | Appending the check digit gives a valid number and no other digit does |
| `CheckDigits.AbaDigitUnique` | dlp_harness/generators.py:90-98 | The same for routing numbers |
| `CheckDigits.EanDigitUnique` | dlp_harness/generators.py:295-297 | The same for article numbers with a body of even length; for an odd length the one valid digit is seven times the computed one, which itself is valid only if 0 or 5 |
| `CheckDigits.SingleChangeDetected` | dlp_harness/generators.py:60-98 | Any change of one digit of a valid number is rejected, under all three checksums |
| `CheckDigits.LuhnSwap` | dlp_harness/generators.py:72-84 | Exchanging neighbours of a valid number goes unnoticed if and only if they are equal or are 0 and 9 |
| `CheckDigits.AbaSwap` | dlp_harness/generators.py:87-93 | Exchanging neighbours goes unnoticed if and only if they are equal or five apart |
| `CheckDigits.EanSwap` | dlp_harness/generators.py:295-297 | The same for article numbers |
| `CheckDigits.ShiftedCheckDigitInvalid` | dlp_harness/generators.py:285-289 | The invalid-number trap is never Luhn-valid |
| `ConfigStore.RestoreUndoes` | dlp_harness/db.py:148-169 | Restoring a snapshot brings every DLP key back, absent ones included, and touches no other; its JSON form does the same |
| `ConfigStore.JsonRoundTrip` | dlp_harness/db.py:153-158 | The JSON form keeps a snapshot, absent keys included |
| `ConfigStore.RunOverridesCovered` | dlp_harness/constants.py:199-250 | No run overrides a key that the snapshot leaves out |
| `ConfigCleanup.Harness.TakeSnapshot` | dlp_harness/db.py:148-151 | The reads are attempted in order, exactly up to the first that raises; without one the snapshot holds the raw value or the absence of every key; nothing is written |
| `ConfigCleanup.Harness.ApplyOverrides` | dlp_harness/db.py:171-173 | The writes are attempted in order, exactly up to the first that raises, and the store is that after these writes |
| `ConfigCleanup.Harness.Restore` | dlp_harness/db.py:160-169 | The writes of the snapshot are attempted in order, exactly up to the first that raises, and the store is that after these writes |
| `ConfigCleanup.Harness.CleanUp` | dlp_harness/e2e.py:712-735 | The plan of the cleanup is attempted exactly up to the first step that raises, then the warning; only an interrupt or what the warning raises is passed on |
| `ConfigCleanup.Harness.Body` | dlp_harness/e2e.py:620-702 | The try part takes exactly the steps up to the first that raises; snapshot, configuration, metrics and exception are those of that many steps |
| `ConfigCleanup.Harness.CleanUpAndRestore` | dlp_harness/e2e.py:712-738 | The restore is attempted after the cleanup however that ends, and its exception replaces that of the cleanup |
| `ConfigCleanup.Harness.RunE2e` | dlp_harness/e2e.py:620-746 | For any faults at any steps: the trace, the final configuration and the exception raised are exactly those that the faults determine; RunOrder says what their order is |
| `RunOrder.CleanupInOrder` | dlp_harness/e2e.py:704-738 | On the positions of any trace: a purge, due unless alerts are kept, stands behind a completed residual drain, and a drain behind the completed lookup when one is due; each is taken at most once; unless one of them raises all that are due are taken, and a warning is given if and only if one does; every restoring write is behind them |
| `RunOrder.BodyInOrder` | dlp_harness/e2e.py:620-702 | On the positions of any trace: overrides stand behind all reads of the snapshot and its filing, every task behind all overrides and all earlier tasks, each completed |
| `RunOrder.NoMailWhileWorking` | dlp_harness/constants.py:227-236 | While a run works and cleans up, in every scanner mode, all mail settings are off and nothing is deduplicated |
| `RunOrder.ScannersWhileWorking` | dlp_harness/constants.py:239-249 | While a run works, exactly the scanners of its mode are enabled, whatever was set before |
| `ConfigCleanup.CleanupRuns` | dlp_harness/e2e.py:712-735 | Cleanup on every exit path: it is complete if and only if no fault hits it, else exactly the steps up to the fault and the warning were taken; an exception leaves it only as an interrupt or from the warning |
| `ConfigCleanup.RestoreRuns` | dlp_harness/e2e.py:736-738 | With a snapshot, all keys are written back if no fault hits the restore, else exactly those up to the fault |
| `ConfigCleanup.ConfigurationRestored` | dlp_harness/e2e.py:736-738 | Every key written back before a fault of the restore has its old value; without one all keys of the inventory have, and if the overrides are covered the configuration is as it was |
| `ConfigCleanup.ReturnMeansRestored` | dlp_harness/e2e.py:620-746 | A run that returns normally took every step of its body, rewrote its metrics and left the configuration as it was; an exception of the restore is what the run raises |
| `ConfigCleanup.BodyCompletes` | dlp_harness/e2e.py:620-702 | The body raises nothing if and only if none of its steps is hit, and then has its snapshot and its metrics |
| `ConfigCleanup.SafeWhileWorking` | dlp_harness/e2e.py:621-633 | Once any work has been attempted every override is in effect, and stays so through the cleanup |
| `ConfigCleanup.RestoreComesLast` | dlp_harness/e2e.py:620-738 | Restoring writes come after every override and the whole cleanup, and are the last configuration writes |
| `Drain.Watch` | dlp_harness/e2e.py:383-397 | The loop ends at the first poll after which the settling time has passed since the reading that followed the last move, or else the timeout; which reading follows which poll is given by the moves so far |
| `Drain.SettledMeansStill` | dlp_harness/e2e.py:383-397 | Settled means that all polls of a stretch up to the last gave one answer, the one before it another, and that the settling time lies between the readings after its first and last poll |
| `Drain.MoveRestartsSettling` | dlp_harness/e2e.py:394-397 | After a poll that moved the answer only the time since the reading right after it counts |
| `Drain.EndUnique` | dlp_harness/e2e.py:383-397 | Answers and readings decide when the drain ends and whether it has settled |
| `Drain.DrainAlerts` | dlp_harness/e2e.py:364-398 | The residual drain ends that way, at once and settled without requests, and reports the time since the last send |
| `Drain.MeasureDrain` | dlp_harness/load.py:308-333 | The same loop, billing the time to the last change but not the settling time |
| `DocBuilder.Builder.Append` | dlp_harness/corpus.py:61-63 | Appended text moves no span |
| `DocBuilder.Builder.Plant` | dlp_harness/corpus.py:65-85 | The planted text is recorded where it stands, after all earlier spans |
| `DocBuilder.Builder.Build` | dlp_harness/corpus.py:87-99 | The span check never fails, and the document is the text with its spans |
| `DocBuilder.MakeDocument` | dlp_harness/corpus.py:316-447 | Every slot is planted once, in order, at an exact span disjoint from the others |
| `DocBuilder.TextsReadBack` | dlp_harness/corpus.py:87-99 | Every recorded span of either kind reads back the text of a planted slot of that kind |
| `DocBuilder.InsertAt` | dlp_harness/corpus.py:116-141 | Characters inserted from the right stand exactly before the drawn positions |
| `DocBuilder.TransformUndone` | dlp_harness/corpus.py:116-141 | Removing the inserted character undoes the zero-width and newline transforms if and only if the text did not contain it |
| `DocBuilder.RemoveUndoesSpread` | dlp_harness/corpus.py:116-141 | In general removal gives what it gives on the original text |

## Left out

- Float rounding: shares, ratios, areas, percentiles and progress are exact reals or integers; `ceil(last *
  1.5)` and `f / p > 1.25` are exact.
- StreamShape.WellFormedOutput: holds for parsed lines; a `delta`, `function` or `usage` that is null makes
  the source raise, and is not modelled. JSON parsing and the data prefix are folded into `Line`.
- `format_stream_event` and `_map_finish_reason` are not part of this model; a finish reason f is kept as
  `Mapped(f)`.
- A request and its future are one object; a cancelled wait for the next request may in reality lose that
  request, which the standard library's `wait_for` is taken not to do.
- `stop` and task cancellation of the batcher and the job manager: futures and statuses are abandoned there on
  purpose.
- Clocks in the batcher are parameters; that a window ends in time is not stated.
- VideoWorker.JobManager.Submit: does not model the job specification, the output path and the creation time;
  ids are taken to be fresh.
- VideoWorker.JobManager.RequestCancel: does not model the completion time.
- VideoWorker.JobManager.TakeNext: does not model the start time.
- VideoWorker.JobManager.ReportProgress: does not model the rounding of the percentage.
- VideoWorker.JobManager.EndRun: does not model the removal of the output file and the completion time.
- DocBuilder.Builder.Plant: does not model the attributes of planted items.
- Matching.MatchDocument: does not model severity prediction, latency and the metadata of the document.
- ThresholdSweep.MatchCorpus: does not model the latencies of the documents.
- Metrics.SpanConfusion: does not model the macro averages.
- UsageMerge.MergeUserCounts: does not model user data, tokens and dates of the merged entries.
- Routing.TiesGoRound: holds the depths fixed, as between picks that enqueue nothing; Routing.Balanced follows
  whole runs of submissions instead.
- Replicas.ModelManager.Submit: ends at the await; the return to the caller and the final decrement of
  `inflight` are the event `Resume` of `ServiceRuns`.
- `severity_accuracy`, `recall_by`, `scope_split` and `bootstrap_ci`: sums of the same kind as those proved.
- The normalization of raw findings in matching.
- Sorted lists of scanner and trap names are sets here.
- `DocCycler`, `hist_delta_pctl`, `_score`, `frames_for`: true but easy.
- The transforms of `corpus.py` other than the zero-width and newline ones, and the wording that the carriers
  draw around their slots: all ten carriers are one method with arbitrary wording.
- `luhn_valid` on digits outside ASCII; texts of fewer than two characters, on which the inserting transforms
  raise.
- Writers of the configuration other than the run itself. Which ids are left to be looked up and purged is
  given to `ConfigCleanup` with the run, and not computed from what was sent.
- The WDRR scheduler, backend registry, quotas, HTTP handlers, authentication, database sessions, GPU code,
  rendering and command lines.
