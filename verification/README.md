# Verified models of vLLM's sequence state, output path and helpers

A Dafny 4.11 project that models the parts of this repository where several operations have to agree, and proves that
they do. `dafny verify dfyconfig.toml` checks everything.

Objects that the Python code updates in place are classes whose methods are proved against functions on values; the
promises are lemmas about those functions, over every run, every interleaving and every input.

| files | what they model |
|---|---|
| `TokenState`, `Replication`, `Scheduling` | the scheduler's `SequenceData` and the worker's copy of it, kept equal by snapshots and deltas |
| `StopStrings`, `Streaming`, `CleanText` | finding stop strings, the text held back for them, a `Sequence` handing out text and tokens, and when its text is free of stop strings |
| `Outputs`, `Rendering`, `Aggregation` | `RequestOutput`: chunks, the cached and the fresh path, merging chunks |
| `Sampling`, `Parallel`, `ParallelStreaming`, `BestOf`, `StableSort` | one request split into several, joined again with and without streaming |
| `FreeQueue`, `Pools`, `BlockPools` | the V1 block pool: the doubly linked queue of free blocks, reference counts, and the cache of block hashes |
| `BuildTimes`, `BuildSweep` | sharing wall time among overlapping build steps |
| `DataParallel` | chunk sizes agreed across ranks and the chunked expert layer |
| `Bits`, `ScalarTypes`, `FloatRange` | packed type ids, their registry, and the largest value of a float format |
| `BadWords`, `RateLimit`, `BlockKeys`, `HiddenRows` | bad-word exclusion, the token bucket, prefix keys of blocks, hidden-state rows |

Times and logprobs are real numbers, token ids and counters unbounded integers, and a logit is minus infinity or a real
number. The clock, the sampled tokens and their decoded text are arguments of the steps, chosen freely by each run.

## Where the code and its documentation part

The model follows the code. Each of these has the exact condition, followed by a concrete case.

- The text returned after a stop is said not to contain a stop string (vllm/sampling_params.py:144-146). A string listed
  later than the one that matched can stay in it, and so can one generated below `min_tokens`
  (`CleanText.FinalTextIsCleanIff`, `CleanText.AlwaysCleanIff`; `CleanText.LaterStopStringSurvives`,
  `CleanText.EarlyStopStringSurvives`).
- Holding back the longest stop string less one character is enough, but not always needed
  (`StopStrings.CoversIff`, `StopStrings.HoldBackIsTightIff`; `StopStrings.HoldBackCanBeTooLong`).
- A count below one is said to be refused; giving `best_of` lets it through unless the output is streamed, and then another
  number of sequences is returned (`Sampling.CountIsCheckedIff`, `BestOf.RequestedCountIff`; `BestOf.CountsBelowOne`).
- When streaming several sequences, more than one output can be marked finished (`ParallelStreaming.FinishedMarks`;
  `ParallelStreaming.TwoOutputsMarkedFinished`).
- Merged DELTA outputs repeat logprobs when the first one carried no token, because that chunk shares the sequence's list
  (`Aggregation.FoldRefinesCumulative`; `Aggregation.LogprobsAreRepeated`), or fail an assertion when merging begins later
  (`Aggregation.AddHoldsIff`; `Aggregation.LateFoldFails`).
- The limiter's rate can be exceeded, up to a factor of two, within a second (`RateLimit.RateHoldsIff`;
  `RateLimit.TwiceTheRateHappens`).
- The expert layer fails on a rank without tokens (`DataParallel.ForwardChunked`; `DataParallel.EmptyRankFails`).
- Types whose fields are too wide share ids (`ScalarTypes.IdsEqualIff`; `ScalarTypes.WideTypesCollide`), and for IEEE 754
  formats with one exponent bit the largest value is not a value of the format (`FloatRange.LargestFiniteValue`;
  `FloatRange.OneExponentBit`).
- A block whose last references are given up in one call that names it twice enters the free queue twice
  (`Pools.FreeKeepsInvIff`; `Pools.FreedTwice`).
- A sequence that is added to the hidden states while it is in the batch keeps its old row (`HiddenRows.RunsTrack`;
  `HiddenRows.AddedTwice`).

## Model

| member | source | states |
|---|---|---|
| TokenState.SequenceData.AppendTokenId | vllm/sequence.py:294-301 | appending extends the output, the unsent tokens, the all-token cache and the cumulative logprob together; the cache stays prompt ++ output |
| TokenState.SequenceData.UpdateNumComputedTokens | vllm/sequence.py:347-354 | the assertion holds exactly when no more tokens are counted than are uncomputed; the stage becomes decode exactly when none is left |
| TokenState.SequenceData.ResetStateForRecompute | vllm/sequence.py:364-371 | the counter, the stage and the unsent tokens start over, and nothing else changes |
| TokenState.SequenceData.GetDeltaAndReset | vllm/sequence.py:391-397 | the delta carries the unsent tokens and the current counters, and only the unsent tokens are cleared |
| TokenState.SequenceData.ApplyDelta | vllm/sequence.py:399-404 | a delta overwrites the counters and extends output and cache, which stays prompt ++ output |
| Replication.StepKeepsSync | vllm/sequence.py:294-404 | every step of the scheduler keeps: the worker's output followed by the unsent tokens is the scheduler's output |
| Replication.RunsStaySynced | vllm/worker/worker.py:527-566 | over every run of appends, counter updates, resets, snapshots and delta cuts, each delivery in order leaves the worker with the scheduler's output, cache, computed count, logprob and stage at the moment of sending |
| Replication.NothingLostOrRepeated | vllm/sequence.py:391-404 | after any number of deliveries: the worker's output, brought up to date by the deltas and snapshots on the wire, then the tokens that resets dropped since the last snapshot, then the unsent tokens, is exactly the scheduler's output |
| Replication.DeltaAfterResetMatchesIff | vllm/sequence.py:364-371 | a delta cut after a reset with no snapshot between matches if and only if the reset found nothing unsent |
| Replication.DeltaAfterSnapshotMatchesIff | vllm/sequence.py:391-404 | a delta cut after a snapshot matches if and only if the snapshot was taken with nothing unsent; otherwise it repeats tokens |
| Scheduling.SchedulerRunsStaySynced | vllm/core/scheduler.py:1558-1620 | the scheduler's own choice of snapshot or delta obeys that discipline in every run, with preemption at any step, and `get_num_new_tokens` equals the uncomputed count whenever it is asked |
| Scheduling.FromAnyNonemptyPrompt | vllm/sequence.py:620-629 | the same from any nonempty prompt, with no further assumption |
| Scheduling.PrefillTerminates | vllm/sequence.py:347-378 | a prefill phase that is not preempted lasts fewer steps than it had tokens to compute |
| Scheduling.SnapshotIff | vllm/core/scheduler.py:1562-1620 | in every run a snapshot goes out with the first step and with the first one after each preemption, and a delta with every other step that computes |
| Scheduling.ApplyAll | vllm/sequence.py:983-984 | deltas go to the sequences they name, in order, up to the first unknown id |
| Scheduling.TakesItsOwn | vllm/sequence.py:983-984 | whatever the other sequences receive in between, each ends up as if only its own deltas had been applied, in order |
| Scheduling.StopsAtUnknown | vllm/sequence.py:983-984 | from the first unknown id on nothing is applied |
| Scheduling.SequenceGroupMetadata.ApplyDelta | vllm/sequence.py:981-989 | every sequence takes exactly its own deltas; block tables, chunk size and flags change only if all ids and the request id match |
| StopStrings.FindFrom | vllm/engine/output_processor/stop_checker.py:116-117 | the first occurrence from a position on, or that there is none |
| StopStrings.CheckFindsExactly | vllm/engine/output_processor/stop_checker.py:95-131 | searching only the tail misses nothing: a match is reported exactly when a stop string ends in the new text, for the first such string listed and its first such place |
| StopStrings.CheckStopStrings | vllm/engine/output_processor/stop_checker.py:95-131 | the loop over the stop strings computes that check |
| StopStrings.HoldBackCoversEveryMatch | vllm/sampling_params.py:340-343 | the cut a match asks for never reaches into text that could have been released before |
| StopStrings.OccurrencesStartAfterReleased | vllm/sampling_params.py:340-343 | in any extension of stop-free text every stop string starts at or after what has been released |
| StopStrings.CoversIff | vllm/sampling_params.py:340-343 | a hold-back of any size covers every extension of stop-free text if and only if no longer proper prefix of a stop string is free of stop strings |
| StopStrings.HoldBackIsTightIff | vllm/sampling_params.py:340-343 | the hold-back covers everything; one character less does not, if and only if a longest stop string is stop-free up to its last character |
| StopStrings.HoldBackCanBeTooLong | vllm/sampling_params.py:340-343 | a concrete list for which two characters are held back and none would have to be |
| StopStrings.CutTextIsStopFreeIff | vllm/engine/output_processor/stop_checker.py:113-131 | for any old and new text: a match is found exactly if a stop string ends in the new text, and the text before the cut is then free of stop strings if and only if none ends by the place where the first-listed match begins |
| StopStrings.ShortStepsCutClean | vllm/engine/output_processor/stop_checker.py:113-131 | a step that adds no more characters than any stop string has always cuts clean |
| StopStrings.EveryCutIsCleanIff | vllm/engine/output_processor/stop_checker.py:113-131 | all steps cut clean if and only if every stop string contains the one listed first |
| CleanText.StepIsCleanIff | vllm/engine/output_processor/stop_checker.py:43-92 | whether the text after any step is free of stop strings, from the inputs of the step |
| CleanText.UnfinishedIsCleanIff | vllm/engine/output_processor/stop_checker.py:43-92 | over every run: while generation continues, the text is free of stop strings if and only if no step below `min_tokens` added one |
| CleanText.FinalTextIsCleanIff | vllm/sampling_params.py:144-146 | over every run from any prompt: exactly when the final text is free of stop strings, for every kind of finish |
| CleanText.RunsStayClean | vllm/sampling_params.py:144-146 | without `min_tokens`, short steps or a string contained in all others listed first keep every text clean |
| CleanText.AlwaysCleanIff | vllm/sampling_params.py:144-146 | the promise holds of a request, whatever is generated, if and only if it has no stop string, or no minimum length and each of its stop strings contains the first |
| CleanText.LaterStopStringSurvives | vllm/sampling_params.py:144-146 | a concrete run from which a later-listed stop string is not removed |
| CleanText.EarlyStopStringSurvives | vllm/engine/output_processor/stop_checker.py:43-46 | a concrete run in which a stop string generated below `min_tokens` stays |
| CleanText.LaterMatchRemovesMissed | vllm/engine/output_processor/stop_checker.py:43-46 | a concrete run in which such a string is removed by a later match that begins before it |
| Streaming.Status.Reason | vllm/sequence.py:54-73 | a reason is given exactly for finished statuses: "stop" for a stop, "abort" for an abort, "length" for a limit or an ignored prompt, and for nothing else |
| Streaming.Sequence.AppendTokenId | vllm/sequence.py:579-586 | a token, its logprobs and its share of the cumulative logprob are added together |
| Streaming.Sequence.GetOutputTextToReturn | vllm/sequence.py:506-523 | cumulative reads change nothing; delta reads return the text from the last offset to the releasable length and move the offset there |
| Streaming.Sequence.GetOutputTokenIdsToReturn | vllm/sequence.py:525-547 | the bare token, the empty list or the slice that a token read returns, and the new offset |
| Streaming.Sequence.MaybeStop | vllm/engine/output_processor/stop_checker.py:31-92 | the order and effect of the stop conditions: minimum length, end token, stop tokens, stop strings, length limits |
| Streaming.StepStopsIff | vllm/engine/output_processor/stop_checker.py:43-92 | from the inputs of a step: it ends the sequence if and only if the minimum number of tokens is reached and the token stops it, a stop string ends in the new text, or the model length or `max_tokens` is reached; as stopped exactly for the first two, as length-capped exactly for a limit alone |
| Streaming.StepLeaves | vllm/engine/output_processor/stop_checker.py:49-81 | the stop reason and the text each kind of end leaves: none for the end token, the stop token, or the first listed string that ends in the new text; and where the text is cut, with and without the stop in the output |
| Streaming.RunsStayWithin | vllm/engine/output_processor/stop_checker.py:84-92 | over every run the output grows up to a limit and no further, and has ended when it is there |
| Streaming.AbortedIff | vllm/core/scheduler.py:595-606 | a run ends as aborted if and only if it was aborted |
| Streaming.TokenDeltaIsExact | vllm/sequence.py:525-547 | whatever shape a token delta takes, it is exactly the output since the last one and never contains prompt tokens |
| Streaming.StopKeepsReleased | vllm/engine/output_processor/stop_checker.py:31-92 | no stop condition cuts into text that may have been handed out |
| Streaming.ReadKeepsExact | vllm/sequence.py:506-547 | after a delta read everything handed out so far equals one cumulative read |
| Streaming.RunsStayExact | vllm/sequence.py:506-547 | over every run of tokens, reads, preemptions and any kind of finish, the concatenated deltas are a prefix of text and output and nothing is retracted |
| Streaming.CumulativeNeverRetracts | vllm/sequence.py:511-515 | what a cumulative read returns is a prefix of every later one, whatever happens in between |
| Streaming.DeltasEqualCumulative | vllm/sequence.py:506-547 | from any prompt: the deltas so far equal a cumulative read, and after the finish the final text and output |
| Outputs.DeltaChunkIs | vllm/outputs.py:232-255 | a DELTA chunk is the text, tokens and logprobs between the old offsets and the new ones |
| Outputs.NextChunk | vllm/outputs.py:233-251 | the fields of a chunk read from the live sequence, and exactly when its logprob list is the sequence's own list |
| Outputs.CompletionOutput.MergeFrom | vllm/outputs.py:152-166 | merging extends text, tokens and the logprob list in place and takes over the newer reasons; the assertion fails exactly when new logprobs meet none |
| Outputs.RequestOutput.Add | vllm/outputs.py:143-172 | the finished flags are combined, and each completion is merged, replaced or appended by its index, up to the first failed assertion; merging keeps the completion objects where they are |
| Outputs.AddAllIsPointwise | vllm/outputs.py:149-172 | outputs of one group merge position by position, and the assertion holds if and only if it does at every position |
| Outputs.AddKeepsPlaces | vllm/outputs.py:149-172 | completions keep their places and indices, and one that is not the first of its index stays as it is |
| Outputs.AddFinds | vllm/outputs.py:149-172 | an index keeps its place and holds something afterwards if and only if it did or was given; one that was not given holds what it held |
| Outputs.ReplaceHoldsLast | vllm/outputs.py:167-169 | without aggregation nothing fails, and an index holds the last completion given with it |
| Outputs.ReplacesAll | vllm/outputs.py:167-169 | without aggregation the next output of a group takes the place of the earlier one |
| Outputs.MergeHoldsAll | vllm/outputs.py:152-166 | with aggregation everything given with an index is merged in turn into what it held, or into the first of it if the index is new |
| Outputs.NewOnesFollow | vllm/outputs.py:171-172 | in both modes completions with new indices follow, each index once, in the order they were first given |
| Outputs.AddStopsAt | vllm/outputs.py:152-162 | what is left when the assertion fails: everything before is merged, and of the failing completion the text and the tokens |
| Aggregation.FirstChunk | vllm/outputs.py:233-251 | on the objects: the first chunk, whose list is the sequence's own exactly while that is empty |
| Aggregation.MergeNext | vllm/outputs.py:152-166 | on the objects: cutting the next chunk and merging it, where sharing a list is having it as one object |
| Aggregation.GenerateNext | vllm/sequence.py:579-586 | a token generated while a folded completion shares the list shows up in that completion |
| Aggregation.FoldRefinesCumulative | vllm/outputs.py:143-172 | folding all DELTA outputs of a request never fails and gives, for every index, the text, tokens, logprob and reasons of a CUMULATIVE output, and its finished flag; the per-token logprobs of an index agree if and only if they are not wanted, its first chunk had a token, or none ever came |
| Aggregation.FirstOutputAgrees | vllm/outputs.py:199-336 | a request with a single DELTA output: it is the CUMULATIVE one, for every index |
| Aggregation.AddHoldsIff | vllm/outputs.py:159-162 | wherever folding begins, the assertion in `add` has held if and only if logprobs are not wanted or no sequence whose first chunk lacked them has had a token handed out since |
| Aggregation.LogprobsAreRepeated | vllm/outputs.py:241-251 | a concrete run, as in a chunked prefill, whose folded logprobs hold the first token's twice |
| Aggregation.LateFoldFails | vllm/outputs.py:159-162 | a concrete run in which the assertion fails |
| Aggregation.RunsKeepInv | vllm/outputs.py:241-255 | what holds of the folded text, tokens, logprobs and finished flag after every step of every run of a group |
| Rendering.EmitFresh | vllm/outputs.py:288-295 | a new completion holds the chunk of its sequence |
| Rendering.EmitCached | vllm/outputs.py:257-286 | a rewritten completion holds the same chunk |
| Rendering.RenderFresh | vllm/outputs.py:228-297 | one new completion per sequence in order, and the prompt is included exactly until tokens have been handed out before |
| Rendering.FillSlots | vllm/outputs.py:232-297 | the same into cached completions; the index assertion holds |
| Rendering.PadSlots | vllm/outputs.py:258-269 | missing completions are appended with the index of their place |
| Rendering.SequenceGroup.IsFinished | vllm/sequence.py:856-859 | the shortcut for a single sequence agrees with asking all of them |
| Rendering.SequenceGroup.Render | vllm/outputs.py:199-336 | cached and fresh output agree in every field and leave the sequences in the same state; FINAL_ONLY yields nothing exactly while unfinished |
| Rendering.PromptUntilTokens | vllm/outputs.py:252-255 | from one output to the next: the prompt is in every output that is not DELTA, and in DELTA outputs until one with tokens has gone out; the finished flag |
| Sampling.SamplingParams.PostInit | vllm/sampling_params.py:297-345 | the counts, stop list and buffer that result, and the first check that fails, in the order of the source |
| Sampling.AcceptedMeans | vllm/sampling_params.py:297-437 | an accepted configuration holds back the longest stop string less one, and streams only when all sequences are returned |
| Sampling.AcceptedIff | vllm/sampling_params.py:297-437 | a configuration is accepted if and only if none of six faults is in it as written, and otherwise the first of its faults in the order of the checks is reported |
| Sampling.CountIsCheckedIff | vllm/sampling_params.py:304-311 | where a count of one is accepted, a smaller one is too if and only if `best_of` is given and the output is not streamed |
| Parallel.SubIdsDistinct | vllm/sequence.py:1395-1397 | the ids of the sub-requests are different |
| Parallel.Engine.AddRequest | vllm/sequence.py:1390-1429 | all sub-requests are registered for the group and to be finished, and other entries stay |
| Parallel.ParallelSampleGroup.MaybeAssembleGroup | vllm/sequence.py:1431-1465 | when the assembled group is handed out, and the crash on an empty dictionary |
| Parallel.ParallelSampleGroup.FinishSeq | vllm/sequence.py:1374-1378 | the sub-request moves from one dictionary to the other and the rest keep their order, or the lookup fails |
| Parallel.Engine.ReportSub | vllm/outputs.py:181-197 | the join, and the clearing of the lookup table after the last sub-request; entries of other requests stay |
| Parallel.Engine.Forget | vllm/engine/llm_engine.py:1131-1137 | the entries of finished requests are dropped at the next schedule, and no others |
| Parallel.ReportKeepsPartition | vllm/outputs.py:181-197 | unfinished sub-requests, in the order of their ids, and finished ones partition all of them; a group is handed out, when streaming, exactly if all sub-requests with lower indices were reported finished, and otherwise exactly for the last finish; the last finish always yields it and empties the table |
| ParallelStreaming.RunsKeepInv | vllm/sequence.py:1431-1441 | over every interleaving of engine steps, reports and dropped entries: partition, exact prefixes handed out, and everything delivered once the last sub-request is reported |
| ParallelStreaming.HandedOutIff | vllm/sequence.py:1434-1441 | every sequence's chunk goes out with the report of the lowest sub-request not yet reported finished, and with no other; the output is marked finished exactly if all sequences are |
| ParallelStreaming.FinishedMarks | vllm/outputs.py:179-197 | how many outputs are marked finished: one for the last report and one for each report of the lowest sub-request not reported finished after all sequences finished while others are unreported |
| ParallelStreaming.EveryRunDelivers | vllm/outputs.py:179-236 | from any request: each sequence's text and tokens are handed out in full, nothing lost or repeated; exactly one output is marked finished if and only if no such early report occurs |
| ParallelStreaming.TwoOutputsMarkedFinished | vllm/outputs.py:179-197 | two sequences that reach the length limit in the same step give two outputs marked finished |
| StableSort.SortedIsSorted | vllm/sequence.py:1459-1459 | the library sort, as an ordered permutation |
| StableSort.SortedIsStable | vllm/sequence.py:1459-1459 | every element is taken from its own place, none left out, and elements that tie come in the order of their places |
| BestOf.RequestedCountIff | vllm/sequence.py:1454-1461 | by cumulative logprob, written out: the kept sequences descend, ties in the order of the sub-requests, and every dropped one is below each kept one or ties with it and comes later; the requested number is returned if and only if it is positive |
| BestOf.CountsBelowOne | vllm/sequence.py:1454-1461 | with two sequences, a count of zero returns both and a count of minus one returns one |
| BestOf.StepKeepsSum | vllm/sequence.py:301-301 | the cumulative logprob is the sum of the logprobs of the sampled tokens |
| BestOf.RunsKeepInv | vllm/sequence.py:1443-1465 | over every run without streaming: no output before the last finish, then exactly one |
| BestOf.BestSequencesReturned | vllm/sequence.py:1443-1465 | end to end: of `best_of` sequences the requested number is returned, those with the largest sums of per-token logprobs, in descending order and ties in the order of the sub-requests |
| BuildSweep.CollectEvents | tools/report_build_time_ninja.py:206-219 | two events per target, and, when no time is negative, the earliest start and latest end |
| BuildTimes.TimelineIs | tools/report_build_time_ninja.py:222-227 | the sorted events: every target's start and stop, ordered by time with starts first |
| BuildTimes.StartsFirstIff | tools/report_build_time_ninja.py:224-227 | a start comes before its stop exactly when the end is not before the start |
| BuildTimes.OpenTasksAreRunning | tools/report_build_time_ninja.py:228-246 | in a gap that takes time, those started and not stopped are those running throughout it |
| BuildSweep.SweepEvents | tools/report_build_time_ninja.py:229-255 | the event loop against positions, running totals and weights; when every stop finds its start, no task is left running |
| BuildSweep.Sweep | tools/report_build_time_ninja.py:229-255 | it fails, at a lookup or at the final assertion, exactly when there is no target or one ends before it starts; otherwise each target gets the sum of its equal shares of the gaps it runs through, and the total is their sum |
| BuildTimes.WeightedIsDifference | tools/report_build_time_ninja.py:244-253 | the change of the running total between start and stop is that sum of equal shares |
| BuildTimes.WeightedAtMostDuration | tools/report_build_time_ninja.py:74-89 | each weighted duration lies between zero and the duration |
| BuildTimes.Conservation | tools/report_build_time_ninja.py:247-255 | the weighted durations add up to exactly the time during which at least one step ran |
| BuildTimes.TotalAtMostLength | tools/report_build_time_ninja.py:219-261 | the total is at most latest minus earliest, with equality if and only if there is no idle gap |
| BuildSweep.Summarize | tools/report_build_time_ninja.py:197-255 | all of this for the whole report |
| DataParallel.AllReduceGathers | vllm/forward_context.py:71-85 | the sum of the one-hot vectors gives every rank all counts |
| DataParallel.DifferencesUndoCumsum | vllm/forward_context.py:144-149 | differencing the running sums gives the counts back |
| DataParallel.ComputeChunkedLocalNumTokens | vllm/forward_context.py:50-62 | the loop fills in the chunk size of every rank |
| DataParallel.DPMetadata.Make | vllm/forward_context.py:107-116 | maximum and running sums of the gathered counts |
| DataParallel.DPMetadata.EnterChunk | vllm/forward_context.py:144-153 | inside the context every rank holds the same list of chunk sizes |
| DataParallel.ChunksTile | vllm/forward_context.py:57-61 | sizes lie in 1..M; chunks that are not dummies follow one another without gap or overlap and cover each rank's tokens exactly once there are enough for the largest rank |
| DataParallel.ForwardChunked | vllm/model_executor/layers/fused_moe/layer.py:1662-1744 | running chunk by chunk gives the result of one pass over all rows; during each chunk every rank holds the same list of sizes, this rank's own chunk has the size listed for it, there are as many chunks on every rank, and no list is left behind, also after a failure; it fails if and only if the rank has no tokens while another has |
| DataParallel.EmptyRankFails | vllm/model_executor/layers/fused_moe/layer.py:1729-1741 | a concrete rank without tokens, whose slice has no row where one is expected |
| ScalarTypes.Packer.OrAndAdvance | vllm/scalar_type.py:147-152 | or-ing a shifted field in adds it above the fields packed so far |
| ScalarTypes.UnpackUndoesPack | vllm/scalar_type.py:147-159 | shifting and masking the number recovers every field cut to its width |
| ScalarTypes.ComputeId | vllm/scalar_type.py:137-166 | the six fields packed in order, always below 2^58 and so within 64 bits |
| ScalarTypes.IdBits | vllm/scalar_type.py:137-166 | where each field is in the id: exponent from bit 0, mantissa 8, sign 16, bias 17, finite flag 49, not-a-number code 50 |
| ScalarTypes.IdsEqualIff | vllm/scalar_type.py:137-166 | two types share an id if and only if they agree in the bits that are kept |
| ScalarTypes.IdIsInjective | vllm/scalar_type.py:137-166 | within the field widths the id determines the type |
| ScalarTypes.WideTypesCollide | vllm/scalar_type.py:270-275 | two types accepted by a constructor that share an id |
| ScalarTypes.Registry.Register | vllm/scalar_type.py:164-166 | giving a type its id enters it into the map |
| ScalarTypes.Registry.FromId | vllm/scalar_type.py:303-308 | the type last entered under an id, or an error |
| ScalarTypes.LastRegisteredWins | vllm/scalar_type.py:164-166 | an id leads to the type that was given it last, and to none if none was |
| ScalarTypes.LookupIsExactIff | vllm/scalar_type.py:263-308 | after any run of constructors every type is found under its id if and only if no two different ones agree in the bits that are kept |
| FloatRange.MaxIsNormal | vllm/scalar_type.py:72-105 | the fields do not overlap and read back as a finite, normal, positive number |
| FloatRange.BitsOfMax | vllm/scalar_type.py:72-105 | the bits written out: the mantissa field, and the exponent field moved from bias 2^(e-1)-1 to the layout's |
| FloatRange.TwoAndOne | vllm/scalar_type.py:89-100 | which codes are the numbers two and one, without a bias; with one exponent bit there is no one |
| FloatRange.CodesAreSpaced | vllm/scalar_type.py:89-100 | codes are evenly spaced within an exponent field, doubled by the next, and spaced below the first as with it |
| FloatRange.LargestFiniteValue | vllm/scalar_type.py:72-109 | the value bounds every finite code, subnormals included, and is attained if and only if the format is not IEEE 754 with one exponent bit; for any target layout |
| FloatRange.LargestFiniteDouble | vllm/scalar_type.py:72-109 | the same for the double that is used, with its exponent field stated in numbers |
| FloatRange.OneExponentBit | vllm/scalar_type.py:72-109 | a concrete IEEE 754 format with one exponent bit, whose larger finite code is two thirds of the value built |
| FloatRange.MinIsNegatedMax | vllm/scalar_type.py:119-127 | setting the sign bit negates the value |
| BadWords.NoBadWordsLogitsProcessor.CheckTokenIdsBounds | vllm/logits_process.py:105-119 | it passes exactly when every token of every word is in the vocabulary |
| BadWords.NoBadWordsLogitsProcessor.InitWordBias | vllm/logits_process.py:88-103 | words of one token are banned for good; on an error nothing is stored |
| BadWords.NoBadWordsLogitsProcessor.LastTokenBias | vllm/logits_process.py:64-82 | among longer words the last tokens of those whose prefix has just been generated are banned; an empty word is an error |
| BadWords.NoBadWordsLogitsProcessor.Call | vllm/logits_process.py:56-86 | a logit becomes minus infinity exactly when its token would complete a bad word, and is unchanged otherwise |
| BadWords.StaysCleanIff | vllm/logits_process.py:66-82 | a token keeps clean text clean exactly when it does not complete a bad word |
| BadWords.SampledIffClean | vllm/logits_process.py:56-86 | the texts whose every token the processor leaves above minus infinity are exactly those the model could produce in which no bad word occurs, at any length |
| BadWords.Generate | vllm/logits_process.py:56-86 | a generation loop that calls the processor at each step, with any model and sampler: no bad word ever appears, and it fails exactly on an empty word or one outside the vocabulary |
| RateLimit.RateLimiter.TryAcquire | benchmarks/disagg_benchmarks/rate_limiter.py:20-36 | tokens stay in 0..rate, a grant is certain more than a second after the last refill, and otherwise the wait ends one second after it |
| RateLimit.AnyWindow | benchmarks/disagg_benchmarks/rate_limiter.py:17-36 | the most that any window of at most one second can grant, and that it is at most twice the rate |
| RateLimit.WindowReached | benchmarks/disagg_benchmarks/rate_limiter.py:17-36 | a window that grants exactly that many |
| RateLimit.RateHoldsIff | benchmarks/disagg_benchmarks/rate_limiter.py:17-36 | every window of one second stays within the rate if and only if, when it begins, no token is left, or the last refill is not before it, or it is more than a second back |
| RateLimit.TwiceTheRateHappens | benchmarks/disagg_benchmarks/rate_limiter.py:24-32 | twice the rate is granted within an arbitrarily short window |
| RateLimit.LongRunBound | benchmarks/disagg_benchmarks/rate_limiter.py:11-36 | within d seconds of construction at most rate * (1 + d) tokens are granted |
| BlockKeys.KeysEqualIff | vllm/sequence.py:332-341 | for prefixes of any length, also beyond the end: keys are equal if and only if the tokens are and prompt and output divide them alike |
| BlockKeys.BlockKeysEqualIff | vllm/sequence.py:549-573 | the key of block k tells apart exactly the sequences that differ in their first (k+1) times block size tokens or in where the prompt ends among them |
| BlockKeys.KeysArePrefixClosed | vllm/sequence.py:549-573 | equal keys at a block mean equal keys and equal tokens at every earlier block |
| FreeQueue.Queue.constructor | vllm/v1/core/kv_cache_utils.py:227-255 | the blocks form one chain in order between two blocks that are never taken |
| FreeQueue.Queue.PopLeft | vllm/v1/core/kv_cache_utils.py:257-288 | the first block leaves the chain, or nothing does when the queue is empty |
| FreeQueue.Queue.PopLeftN | vllm/v1/core/kv_cache_utils.py:290-321 | the first n blocks in order, unlinked, and the rest stays one chain; the assertion fails exactly when there are fewer |
| FreeQueue.Queue.Remove | vllm/v1/core/kv_cache_utils.py:323-341 | a queued block leaves the chain and the others keep their order; the error is raised exactly for a block that is not queued |
| FreeQueue.Queue.Append | vllm/v1/core/kv_cache_utils.py:343-363 | the block becomes the last of the chain |
| FreeQueue.Queue.AppendN | vllm/v1/core/kv_cache_utils.py:365-386 | the blocks follow the last of the chain, in order |
| BlockPools.BlockPool.constructor | vllm/v1/core/block_pool.py:36-73 | block 0 becomes the null block and all others are free, in the order of their ids |
| BlockPools.BlockPool.GetNewBlocks | vllm/v1/core/block_pool.py:170-197 | the objects, their links and the cache follow `Pools.GetNew`; the error is raised exactly when too few blocks are free |
| BlockPools.BlockPool.Touch | vllm/v1/core/block_pool.py:236-250 | the objects and their links follow `Pools.TouchAll`; no removal fails |
| BlockPools.BlockPool.FreeBlocks | vllm/v1/core/block_pool.py:252-267 | the objects and their links follow `Pools.FreeAll` |
| BlockPools.BlockPool.CacheFullBlocks | vllm/v1/core/block_pool.py:131-144 | blocks are entered under their hashes up to the first one that has a hash |
| Pools.CachesEach | vllm/v1/core/block_pool.py:131-144 | it succeeds if and only if the blocks are different and none has a hash; each block up to the first offending one then carries its own hash and is named under it, and no other hash or entry changes |
| BlockPools.BlockPool.ResetPrefixCache | vllm/v1/core/block_pool.py:269-297 | the cache and every hash are cleared exactly when only the null block is in use |
| BlockPools.BlockPool.GetCachedBlock | vllm/v1/core/block_pool.py:75-99 | a block for every group, each carrying that hash, or none exactly when some group has no block with it |
| Pools.GetNewKeepsInv | vllm/v1/core/block_pool.py:170-234 | new blocks are different, were free, end with one reference and no hash, and nothing else changes; the queue stays exact, and the cache names no evicted block |
| Pools.TouchKeepsInv | vllm/v1/core/block_pool.py:236-250 | every touch adds a reference and none leaves a referenced block in the queue; hashes and cache stay |
| Pools.FreeKeepsInvIff | vllm/v1/core/block_pool.py:252-267 | after freeing, the queue holds exactly the unreferenced blocks, each once, if and only if no block is freed more often than it is referenced and one that loses its last reference is named once |
| Pools.FreedTwice | vllm/v1/core/block_pool.py:252-267 | a block with two references, named twice, is appended twice |
| Pools.CacheOneKeepsInv | vllm/v1/core/block_pool.py:131-144 | caching a block without a hash keeps the cache naming exactly the blocks that carry a hash |
| Pools.LookupIsCurrent | vllm/v1/core/block_pool.py:75-99 | a lookup finds a block that carries the hash now, or no block does |
| Pools.HitStays | vllm/v1/core/block_pool.py:75-99 | a hash that leads to a block leads to the same block for as long as the block carries it, whatever others are given it |
| Pools.ResetIff | vllm/v1/core/block_pool.py:269-283 | the cache can be reset if and only if nobody references a block |
| Pools.RunsKeepWorld | vllm/v1/core/block_pool.py:101-297 | over every run of gets, touches, frees, cachings, also failing ones, and resets: the queue holds exactly the unreferenced blocks, each once and never the null block, in the order they were freed; the cache names exactly the blocks with a hash; the counts are the references held |
| Pools.NewBlocksAreExclusive | vllm/v1/core/block_pool.py:22-234 | from a new pool, after any run: a request for blocks succeeds exactly when enough are free, and gives different blocks that nobody holds, those freed longest ago, which no lookup finds |
| HiddenRows.RunsTrack | vllm/sequence.py:1217-1254 | after any run of updates and prunes every sequence in the batch has the rows it was given when it last entered |
| HiddenRows.AddedTwice | vllm/sequence.py:1217-1234 | a concrete sequence added again while it is in the batch, which keeps its old row |
| HiddenRows.HiddenStates.Update | vllm/sequence.py:1217-1234 | a sequence that is not in the batch gets the rows given, and one that is keeps its own |
| HiddenRows.HiddenStates.Prune | vllm/sequence.py:1236-1254 | the given sequences that are known stay, in the given order, each with its own rows |
| HiddenRows.KnownInOrder | vllm/sequence.py:1244-1246 | what is kept of two lists put together is what is kept of the one and then of the other |
| HiddenRows.KnownAre | vllm/sequence.py:1244-1246 | exactly the given ids that are known are kept |
| HiddenRows.HiddenStates.ExpandWithBonusTokens | vllm/sequence.py:1256-1272 | a second-last row is put directly before the last row exactly for sequences with a bonus token |
| HiddenRows.ExpandedLength | vllm/sequence.py:1264-1272 | one row more for every sequence with a bonus token |
| HiddenRows.ExpandedRows | vllm/sequence.py:1264-1272 | where every row is: after those of earlier sequences, a second-last row directly before the last row exactly with a bonus token |

## Left out

- Outputs.RequestOutput.Add: is for completions that are different objects with different logprob lists, as `from_seq_group` builds them; a list shared with the live sequence is captured by `MergeFrom`, `NextChunk` and `Aggregation.MergeNext`. `kv_transfer_params` is left out.
- CleanText.AlwaysCleanIff: is for requests that do not ask for the stop string in the output, and for a vocabulary with a token that ends nothing by itself.
- Parallel.Engine.ReportSub: is for ids in the lookup table; a request whose own id has the form of another request's sub-request id is not modelled, nor are aborts, which take all sub-requests of a request out of the table at once.
- Parallel.Engine.AddRequest: does not model seeds, LoRA, pooling and encoder fields, which are passed on unchanged.
- Sampling.SamplingParams.PostInit: leaves out temperature, penalties and the other argument checks, which read one field each.
- Rendering.SequenceGroup.Render: leaves out metrics, encoder prompts, prompt logprobs and the number of cached tokens, which are copied.
- TokenState.SequenceData.AppendTokenId: leaves out embeddings; the `output_token_ids` setter is not modelled either, since it bypasses the unsent tokens.
- DataParallel.ForwardChunked: the kernel is any function applied row by row; sequence parallelism, shared experts and the router logits are left out.
- FloatRange.LargestFiniteValue: is for at least one mantissa bit; formats other than IEEE 754 are taken to have no infinities. Values are counted in units of the target's smallest positive number.
- HiddenRows.HiddenStates.Update: is for one sequence per group.
- RateLimit.RateLimiter.TryAcquire: models one pass under the lock; the sleep between passes is the choice of later times.
- BuildSweep.CollectEvents: says nothing about the span when a time is negative, because -1 marks an unset start.
- BlockPools.BlockPool.FreeBlocks: is for calls that free cleanly, the exact condition of `Pools.FreeKeepsInvIff`; `Pools.FreeAll` has the queue as a list, so it does not show how the links run after a block was appended twice.
- FreeQueue.Queue.AppendN: is for different blocks outside the queue, for the same reason.
- BlockPools.BlockPool.CacheFullBlocks: is for pools with caching and blocks other than the null block, which is never cached; the blocks and hashes are given from the first uncached one on. Cache events and their parent hashes are left out.
- BlockPools.BlockPool.GetNewBlocks: blocks are given and returned by their ids; cache events are left out.
- Reading the ninja log, grouping by extension and printing.
- `ScalarType.__str__`, `has_nans` and `is_ieee_754`, and the ranges of integer types, which are one line each.
- Tokenizers, detokenization and msgspec encoding: a snapshot is a copy of the fields with the token cache rebuilt.
- Hashing: block keys stand for what is hashed.
- The V1 engine other than the block pool, the managers above it, kernels, configuration and benchmarks.
