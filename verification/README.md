# Live captions: a verified model

This project models the stateful core of the live-captions application and proves what
that core is for: a translation engine whose prefix cache must be invisible, the UTF-8
previews it streams, a second translator that feeds its own key/value tensors back, the
scoring and commit logic of the recognition benchmark, and the smaller algorithms that
prepare, time and select benchmark data.

| file | what it models |
|---|---|
| `Outside.dfy` | interruptions, failing calls, refused trims and time, as a fixed world an engine meets |
| `Engine.dfy` | the reference translation, and what an engine does with a request in a world, on values |
| `HyMt.dfy`, `LlamaContext.dfy` | the Hy-MT2 engine itself: prefix-KV cache, batched prefill, generation, cancellation, fallback |
| `EngineLaws.dfy` | what the engine guarantees: the reference's answers, and when it starts over |
| `Transcripts.dfy` | the reference, and what is reused, said of whole sequences of tokens and the model file alone |
| `Previews.dfy`, `StartingOver.dfy` | what a reader of the previews sees, and exactly when the text starts over |
| `Sessions.dfy` | whole runs of that engine, and the expectations of the native regression program |
| `Options.dfy` | a value that may be missing |
| `CacheKey.dfy` | the length-prefixed configuration key of the cache |
| `Utf8.dfy` | both UTF-8 recognisers against section 4 of RFC 3629, and that grammar against section 3 |
| `ProgressStream.dfy` | the rate-limited publisher of previews |
| `Opus.dfy` | the OPUS greedy decoder over fed-back key/value tensors |
| `Levenshtein.dfy` | error counting: the edit table and its traceback |
| `StablePrefix.dfy` | the commit state machine over live hypotheses |
| `CorrectionLane.dfy` | the one-slot correction lane as interleaved steps of two threads |
| `VttMerge.dfy` | the overlap merge of rolling captions |
| `DecodeTelemetry.dfy` | sliding-window timings across engine rebuilds |
| `Sorting.dfy`, `ChooseRows.dfy` | the duration-stratified sample |
| `Pareto.dfy` | both dominance relations and the frontier |
| `DeviceCorpus.dfy` | capture traces, corrected segments and split separation |

## How to read it

The engine's reference is `FullPrefill`: evaluate the whole prompt from nothing, then
sample with a fresh sampler from logits recomputed for the whole sequence at every step.
A model file is a datatype of unknown functions; logits depend on the backend and the token
sequence only. `Transcripts.ReferenceIff` says without recursion what that amounts to.

Everything outside the engine is a `World`: which read of the cancellation flag finds it set by
another thread, which call fails (finding and probing the device, loading, creating a context,
decoding, the callback), which trim is refused, and how much time passes before each reading of
the clock. The functions ending in `Run` say what happens in a given world; the methods of
`HyMt` and `Opus.Session`, with their memory, cache fields and tensors, are proved to do exactly
that, and the laws quantify over all worlds. A failure label such as `DecodeFailed` is thereby
tied to a call that failed. `Disturbed` says that between two moments a call failed or the flag
was found set; `Quiet`, that nothing goes wrong from a moment on.

A failed decode or trim leaves any memory behind. `LlamaContext` keeps the
logits of the last decode and forgets them on every trim, so a body that keeps the last
shared prompt token, instead of evaluating it again, does not verify. Its `Decode` demands a
non-empty batch within the batch size and the 2048-token window, so the bound on the memory is
a proof obligation of the engine, and it records every batch it evaluates.

Classes follow the classes and records of the program, with their fields updated in place.
What is proved of each method is stated through a function or relation on values, and the
lemmas are about those. The correction lane is a protocol of two threads and is given as
steps on a state; a run is any interleaving.

## What the code does not do

Four promises hold only under a condition. Each is stated with that condition, in both
directions, and with a failing case.

- A completed request's previews are one growing, paced chain of prefixes of what it returns, in
  every world, exactly when the request cannot start over: it is not on the accelerator, has no
  callback, is cancelled already, has no translation on the CPU, or nothing that the accelerator's
  text lets the reader see is followed by previews from the CPU or differs from its result
  (`Previews.CanStartOver`, `StartingOver.OneChainIff`). Otherwise a failure after the first preview
  makes text and clock start over; `StartingOver.TheSameWordTwice` is such a request. A caller that
  does not know the model can rely on one chain exactly in the first three cases
  (`StartingOver.OneChainForAnyModelIff`).
- A committed source prefix cuts the new text in a word exactly when the branch that keeps the old
  commit is taken (`StablePrefix.CleanUnlessKept`);
  `StablePrefix.KeptFragment` shows it for every word. The repository has a test named
  `test_stable_prefix_never_commits_unstable_tail`.
- A correction worker that is gone has answered every accepted segment exactly when it took a job
  after every offer (`CorrectionLane.SettledIffOffersTaken`). One that left its loop misses only what
  is offered after its last look at the queue (`CorrectionLane.SettledIffOffersSeen`,
  `CorrectionLane.OfferAfterExitIsStranded`); an interruption, which nothing in the benchmark sends,
  may strand a job that was offered in time (`CorrectionLane.InterruptionStrands`). The benchmark
  closes the lane after its last offer, so it does settle (`CorrectionLane.ClosedLaneSettles`), and
  soon (`CorrectionLane.DrainEnds`).
- The accumulated timing window is the end of the session exactly when no engine's window is
  smaller than the accumulator's (`DecodeTelemetry.WindowExactIff`).

Two more observations. A prompt that the engine must refuse counts as a failure like any
other, so on the accelerator it ends with a permanent move to the CPU
(`EngineLaws.RefusedPrompt`). Capture validation bounds each step of the clock
but not their sum, so an accepted trace may drift by a quarter of a second for every chunk
(`DeviceCorpus.DriftIsBounded`, `DeviceCorpus.DriftAccumulates`).

The repository's README says that OpenCL offload is not enabled; the engine's code has the
whole path, and the model follows the code.

## Model

| member | source | states |
|---|---|---|
| HyMt.LongestCommonPrefix | app/src/main/cpp/translation.cpp:65-71 | The number of leading tokens two prompts share: equal up to there and different, or at an end, after |
| HyMt.HyMt.Load | app/src/main/cpp/translation.cpp:351-387 | Construction throws, or gives an engine on a backend with a fallback count, exactly as the failing calls decide; the engine has a context made for its backend and an empty cache |
| Sessions.Constructed | app/src/main/cpp/translation.cpp:351-387 | A constructed engine is on the accelerator exactly if that is preferred, found, probed and loaded, and has counted one fallback if it was preferred and is not; bad batch sizes always throw, and a failed CPU load throws |
| Sessions.ConstructedOnCpu | app/src/main/cpp/translation.cpp:364-386 | When a preferred accelerator is missing, unusable or fails to load, the engine is constructed on the CPU with one fallback counted, unless that load fails too |
| HyMt.HyMt.Initialize | app/src/main/cpp/translation.cpp:148-191 | A successful load gives a fresh context on the requested backend and clears the cache; a failed one leaves no context and changes nothing else |
| HyMt.HyMt.PrepareMemory | app/src/main/cpp/translation.cpp:223-242 | Whatever was cached and whether or not the trim succeeds, the memory is exactly a proper prefix of the new prompt, of the length that Transcripts.KeepsWhatIsShared describes; nothing is evaluated |
| Transcripts.KeepsWhatIsShared | app/src/main/cpp/translation.cpp:228-241 | With a matching session and configuration and no refused trim, a completed attempt kept at least all tokens but one of every prefix its prompt shares with the cached one, and no more than all but one of some shared prefix |
| HyMt.HyMt.Prefill | app/src/main/cpp/translation.cpp:248-256 | From any kept proper prefix, exactly the batches of the tokens after it are evaluated, and the memory ends as the whole prompt with its own logits; a failure comes after some first part of those batches |
| Llama.PiecesTile | app/src/main/cpp/translation.cpp:248-256 | Those batches concatenate to the tokens that were not kept; none is empty or longer than the batch size, and all but the last are full |
| HyMt.HyMt.Show | app/src/main/cpp/translation.cpp:271-289 | A result is offered to the callback exactly when it is due, and the first visible time is that of the first callback |
| HyMt.HyMt.Advance | app/src/main/cpp/translation.cpp:320-338 | A sampled piece is shown and its token evaluated after the memory; the attempt fails exactly if the callback throws, or the flag is set or the call fails in the decode |
| HyMt.HyMt.Complete | app/src/main/cpp/translation.cpp:302-310 | The first visible time is that of the first callback, or of completion when there was none |
| HyMt.HyMt.Sample | app/src/main/cpp/translation.cpp:290-340 | One pass of the loop, sampling from the logits at hand, is one step of a generation that recomputes them |
| HyMt.HyMt.GenerateText | app/src/main/cpp/translation.cpp:263-341 | The loop is that generation: text only at end of generation, each token evaluated once and alone, within the 2048-token window |
| HyMt.HyMt.Finish | app/src/main/cpp/translation.cpp:263-341 | From an evaluated prompt, the attempt ends as specified, with statistics that describe it |
| HyMt.HyMt.Evaluate | app/src/main/cpp/translation.cpp:223-341 | With whatever cache, the outcome is that of the specified attempt; after a success the batches evaluated are those of the new prompt tokens and of the generated ones |
| HyMt.HyMt.Run | app/src/main/cpp/translation.cpp:193-341 | One attempt does what is specified of it, and leaves memory, cache and statistics that describe it |
| HyMt.HyMt.FallbackToCpu | app/src/main/cpp/translation.cpp:343-349 | The engine moves to the CPU and counts it, or is left without a context |
| HyMt.HyMt.Restart | app/src/main/cpp/translation.cpp:409-421 | The second attempt is made on the CPU with an empty cache; a failure leaves cache and memory empty |
| HyMt.HyMt.Handle | app/src/main/cpp/translation.cpp:400-421 | The handler of a failed attempt drops the cache and does what is specified: it ends the request with empty memory, or starts it over on the CPU |
| HyMt.HyMt.Serve | app/src/main/cpp/translation.cpp:391-456 | Both translate paths do what is specified of a request; between requests the cached prompt is what the memory starts with, a failure leaves cache and memory empty, and the statistics of a completed request are those of its last attempt |
| EngineLaws.AttemptIsReference | app/src/main/cpp/translation.cpp:193-341 | An attempt, cached or not, returns exactly what a full prefill on its backend returns, that error included, unless a call failed or the flag was found set; it blames the world exactly then |
| Transcripts.PromptErrors | app/src/main/cpp/translation.cpp:197-211 | In terms of the model file alone: a prompt is accepted exactly with the tokens of its rendering, non-empty and at most 2048 - 384 of them as counted, and each of the four refusals has its exact condition |
| Transcripts.ReferenceIff | app/src/main/cpp/translation.cpp:257-341 | The full prefill of an accepted prompt gives a result exactly if some sequence of draws from a fresh sampler, each from the logits of the prompt and all draws before it, ends in it: at the end token with the pieces written, at a token without a piece, or at 384 draws |
| Transcripts.CompletedAttempt | app/src/main/cpp/translation.cpp:193-341 | A completed attempt drew this request's own prompt so, on its backend, evaluated the prompt's tokens and the drawn ones, and returned their pieces |
| EngineLaws.CompletedLooks | app/src/main/cpp/translation.cpp:248-338 | A completed attempt looked for a cancellation at its start, before and in each evaluated batch and token, and before the end token; its calls are those evaluations and its previews |
| EngineLaws.RequestIsTruthful | app/src/main/cpp/translation.cpp:391-456 | A request returns the text or the error of the full prefill on the backend it finished on, or blames the world |
| EngineLaws.QuietRequest | app/src/main/cpp/translation.cpp:391-456 | With nothing going wrong outside, a request gives exactly the full prefill; only an error of the full prefill itself makes it start over |
| EngineLaws.RestartsIff | app/src/main/cpp/translation.cpp:400-421 | A request starts over exactly when its attempt fails on the accelerator and the flag was neither set before nor at any read up to the handler's |
| EngineLaws.RequestMoves | app/src/main/cpp/translation.cpp:343-421 | An engine moves to the CPU and counts it exactly when a request starts over and its reload succeeds; a failed reload leaves no context |
| EngineLaws.RefusedPrompt | app/src/main/cpp/translation.cpp:400-421 | A prompt that must be refused costs the accelerator exactly unless the flag is set by the second of the two reads such a request makes |
| Previews.AttemptShows | app/src/main/cpp/translation.cpp:271-289 | The previews of any attempt, failed ones included, are a paced chain of well-formed prefixes of a text the full prefill on that backend passes through, and of the result if there is one |
| Previews.FirstVisibleInTime | app/src/main/cpp/translation.cpp:302-310 | The first visible time is at least 80 ms if there was a preview, and never after completion |
| Previews.NeverStartsOver | app/src/main/cpp/translation.cpp:391-421 | In no world are the previews of a completed request more than one chain, unless it can start over |
| StartingOver.StartsOver | app/src/main/cpp/translation.cpp:391-421 | A request that can start over does so in some world: its previews are then no chain from any start |
| StartingOver.OneChainIff | app/src/main/cpp/translation.cpp:391-421 | So the previews of a request are one chain of prefixes of its result in every world exactly when it cannot start over |
| StartingOver.OneChainForAnyModelIff | app/src/main/cpp/translation.cpp:391-421 | Whatever the model, that holds in every world exactly when the engine is not on the accelerator, there is no callback, or the request is cancelled already |
| StartingOver.TheSameWordTwice | app/src/main/cpp/translation.cpp:391-421 | For a model that answers one word, every request with a callback on the accelerator has a world in which both attempts show it |
| StartingOver.NewEngineRepeats | app/src/main/cpp/translation.cpp:351-421 | That happens to the first request with a callback on an engine as the constructor leaves it |
| StartingOver.EverythingIsShown | app/src/main/cpp/smoke.cpp:39-52 | When nothing goes wrong and every callback is due, everything the result lets the reader see has been shown |
| Llama.LlamaContext.SeqRm | app/src/main/cpp/translation.cpp:233-236 | What is assumed of trimming: it truncates the memory, or reports failure and leaves anything behind |
| Llama.LlamaContext.Decode | app/src/main/cpp/translation.cpp:251-253 | What is assumed of decoding: it appends a batch that fits and leaves the logits of the whole memory, or fails, aborted by the flag or by itself, and leaves anything behind |
| Sessions.Serve | app/src/main/cpp/translation.cpp:391-456 | Any sequence of requests, cancellations and resets is served one after another as specified, until a reload fails |
| Sessions.EveryRequestIsServed | app/src/main/cpp/translation.cpp:391-456 | Every request is answered in order; or all are up to one whose reload failed, which is the last |
| Sessions.RunsAreTruthful | app/src/main/cpp/translation.cpp:391-456 | Every answer of a run is that of the full prefill on the backend it finished on, or blames the world |
| Sessions.SamePromptSameText | app/src/main/cpp/smoke.cpp:59-76 | In any run, any two completed requests for one prompt on one backend return the same text, cached or not |
| Sessions.CancelsUntilReset | app/src/main/cpp/translation.hpp:73-74 | A cancellation is sticky: every request after it fails as cancelled, makes no call and keeps the backend, until a reset |
| Sessions.ResetServes | app/src/main/cpp/translation.hpp:73-74 | After a reset a request is served as if nothing had been cancelled |
| Sessions.RunsAreOneWay | app/src/main/cpp/translation.cpp:343-421 | In any run the accelerator is never returned to, at most one request starts over, and the fallback count is the number of moves in the log |
| Sessions.WholeLife | app/src/main/cpp/translation.cpp:351-421 | From its constructor on, through any run in any world, an engine falls back at most once, and is on the accelerator exactly when that was preferred and no fallback was counted |
| Sessions.RepeatedRequest | app/src/main/cpp/smoke.cpp:59-64 | Repeating a request returns the same text and reuses all of its prompt but one token, unless the memory refused the trim |
| Sessions.ChangedIdentity | app/src/main/cpp/smoke.cpp:78-85 | Another session or another cache scope starts cold, whatever the prompts |
| Sessions.AfterUncachedOrFailed | app/src/main/cpp/translation.cpp:237-240 | An uncached request, or one that failed or was cancelled, leaves nothing for the next one to reuse |
| CacheKey.TakePartInverts | app/src/main/cpp/translation.cpp:215-219 | A reader recovers a part and exactly what follows it, for arbitrary bytes, digits and colons included |
| CacheKey.KeyIsInjective | app/src/main/cpp/translation.cpp:213-225 | Two keys are equal exactly when model path, cache scope and chat template are |
| Utf8.WellFormedIffEncoded | app/src/main/cpp/translation.cpp:73-95 | A string fits the grammar exactly when it is the encoding of some sequence of Unicode scalar values |
| Utf8.SplitsAtLead | app/src/main/cpp/translation.cpp:76-92 | The lead octet decides how wide the first character is, so a string splits in one way only |
| Utf8.CompleteUtf8Prefix | app/src/main/cpp/translation.cpp:73-95 | The result is the length of the longest well-formed prefix |
| Utf8.LongestIsMonotone | app/src/main/cpp/translation.cpp:73-95 | Appending bytes never shortens the longest well-formed prefix |
| Utf8.WholeIffWellFormed | app/src/main/cpp/smoke.cpp:9-31 | The longest prefix is the whole string exactly when the regression program's recogniser accepts |
| Utf8.ValidUtf8 | app/src/main/cpp/smoke.cpp:9-31 | The regression program's recogniser accepts exactly the well-formed strings |
| Utf8.AsciiSplits | app/src/main/cpp/translation.cpp:97-105 | Cutting a well-formed string before or after a byte below 0x80 leaves well-formed text |
| Progressive.LastCompleteWordBoundary | app/src/main/cpp/translation.cpp:97-105 | The last place after a blank or punctuation mark within the complete bytes |
| Progressive.TrimProgress | app/src/main/cpp/translation.cpp:107-111 | Exactly the trailing blanks are removed |
| Progressive.VisibleIsWellFormed | app/src/main/cpp/translation.cpp:275-280 | What a buffer lets the reader see is a well-formed prefix of it, however tokens split code points |
| Progressive.VisibleIsMonotone | app/src/main/cpp/translation.cpp:275-280 | Appending bytes never withdraws visible text |
| Progressive.VisibleIsLongest | app/src/main/cpp/translation.cpp:275-280 | The visible text ends a word, and everything up to such a place in the well-formed part of the buffer is visible, but for blanks at its end |
| Progressive.ProgressStream.Publish | app/src/main/cpp/translation.cpp:273-289 | A callback is made exactly when there is one, the visible text is longer than the last and 80 ms have passed; the stream advances only if it returns |
| Progressive.PublishedIff | app/src/main/cpp/translation.cpp:273-289 | A callback is made exactly if there is one, the visible text is longer than at the last callback and 80 ms have passed since; it carries the request, the visible text and the floored time |
| Progressive.PublishKeepsChain | app/src/main/cpp/translation.cpp:273-289 | The callbacks so far stay a paced chain of prefixes of the growing result, even if the last one throws |
| Progressive.ChainIsChronological | app/src/main/cpp/translation.cpp:278-288 | The first preview comes at least 80 ms after the start and no later than the last |
| Progressive.ChainBoundsRate | app/src/main/cpp/smoke.cpp:48-49 | There is at most one preview for every 80 whole milliseconds of the reported time |
| Opus.Names | app/src/main/cpp/translation.cpp:496-502 | The nested loops generate the names in the order of their positions |
| Opus.NamesLineUp | app/src/main/cpp/translation.cpp:554-558 | Input 3+i and output 1+i name the same tensor, and i mod 4 below 2 means self-attention |
| Opus.NamesAreDistinct | app/src/main/cpp/translation.cpp:498-501 | No two positions carry the same tensor |
| Opus.MaxElement | app/src/main/cpp/translation.cpp:546-547 | The first position of a greatest score; what it means for masked logits is in Opus.GreedyIff |
| Opus.Session.RunDecoder | app/src/main/cpp/translation.cpp:542-545 | The network runs the branch, and on the token, that the feed's views hold at the call |
| Opus.Session.Step | app/src/main/cpp/translation.cpp:540-547 | With consistent tensors fed back, a step yields the logits and self-attention of the whole sequence so far |
| Opus.Session.FeedBack | app/src/main/cpp/translation.cpp:554-558 | After the first step only self-attention inputs are replaced |
| Opus.Session.FeedStaysConsistent | app/src/main/cpp/translation.cpp:554-559 | The replaced inputs hold the self-attention of all tokens so far, the kept ones still the first step's cross-attention |
| Opus.Session.Translate | app/src/main/cpp/translation.cpp:511-562 | In any world, decoding over fed-back tensors ends exactly like decoding that recomputes every prefix, and text comes only at the end token within 256 steps |
| Opus.TranslationIsGreedy | app/src/main/cpp/translation.cpp:511-562 | That is exactly greedy decoding unless the flag was found set or a run failed, and the outcome says so exactly then |
| Opus.GreedyIff | app/src/main/cpp/translation.cpp:540-561 | Greedy decoding gives a result exactly if fewer than 256 tokens, each the first with the greatest logit among all but the padding token after those before it, lead to the end token; the padding token is never among them unless it is the only one |
| Opus.TranslationLooks | app/src/main/cpp/translation.cpp:512-543 | A completed translation looked for a cancellation at its start and before each run, and made one run for each token |
| Levenshtein.NoCheaperScript | scripts/benchmark/run_asr.py:102-108 | No edit script costs less than the table says, the shortcut on equal items included |
| Levenshtein.Lipschitz | scripts/benchmark/run_asr.py:102-108 | One item more or less changes the distance by at most one, which is why the shortcut is safe |
| Levenshtein.ChoiceIsLeast | scripts/benchmark/run_asr.py:107-108 | On differing items the recorded operation has the least cost, and among those the first letter |
| Levenshtein.Fill | scripts/benchmark/run_asr.py:97-108 | Every cell holds the distance of its prefixes and the least operation by cost, then letter |
| Levenshtein.TraceApplies | scripts/benchmark/run_asr.py:109-116 | The walked operations turn the left sequence into the right one |
| Levenshtein.TraceCosts | scripts/benchmark/run_asr.py:109-117 | The walked operations cost exactly the distance |
| Levenshtein.ScriptLengths | scripts/benchmark/run_asr.py:109-117 | Any script's counts account for both lengths |
| Levenshtein.Walk | scripts/benchmark/run_asr.py:109-116 | The backward walk terminates and counts what the recorded operations say |
| Levenshtein.Levenshtein | scripts/benchmark/run_asr.py:96-117 | The distance is the minimum over all edit scripts and is attained with the three returned counts; they sum to it, deletions less insertions is the length difference, and substitutions plus deletions stay within the reference; among equally short scripts the split is the one the tie-breaking walks |
| StablePrefix.CountShared | scripts/benchmark/run_asr.py:128-131 | The number of leading characters the previous and the new text share |
| StablePrefix.Retreat | scripts/benchmark/run_asr.py:133-135 | The last place after a space or a listed mark |
| StablePrefix.StablePrefix.Accept | scripts/benchmark/run_asr.py:126-139 | The object's new state is the specified successor of its old one |
| StablePrefix.StripTakesEnds | scripts/benchmark/run_asr.py:127 | Stripping takes off exactly the whitespace at both ends |
| StablePrefix.WhitespaceIsIgnored | scripts/benchmark/run_asr.py:127 | Whitespace before or after a hypothesis changes nothing |
| StablePrefix.CandidateEndsCleanly | scripts/benchmark/run_asr.py:132-136 | A candidate is empty, the whole text, followed by whitespace, or ends in a listed mark |
| StablePrefix.CandidateIsLongest | scripts/benchmark/run_asr.py:128-136 | No longer part shared with the previous text ends that way, so the candidate is the most that could be committed |
| StablePrefix.StepKeeps | scripts/benchmark/run_asr.py:126-139 | The commit is a common prefix of the last two stripped hypotheses; it grows exactly when the new one starts with it and shrinks exactly when it does not |
| StablePrefix.RepeatCommitsAll | scripts/benchmark/run_asr.py:126-139 | The same hypothesis twice commits all of it |
| StablePrefix.CleanUnlessKept | scripts/benchmark/run_asr.py:137 | The commit shown cuts a word exactly when the branch that keeps the old commit is taken |
| StablePrefix.KeptFragment | scripts/benchmark/run_asr.py:137 | For every word and every longer word that starts with it, that does happen |
| StablePrefix.NothingWithdrawn | scripts/benchmark/run_asr.py:126-139 | Over any run, commits only grow until a hypothesis contradicts one, and that hypothesis withdraws part of it |
| CorrectionLane.StepKeepsOrder | app/src/main/java/com/asr/live/asr/AsrWavBenchmark.kt:347-382 | Accepted jobs are always the answered ones, then the one in flight, then the queued one |
| CorrectionLane.StepKeepsOutputs | app/src/main/java/com/asr/live/asr/AsrWavBenchmark.kt:350-363 | Each output belongs to its job and was decoded from that job's own samples |
| CorrectionLane.StepKeepsErrors | app/src/main/java/com/asr/live/asr/AsrWavBenchmark.kt:357-362 | The error count is the number of fallback outputs, plus one while such an output is due |
| CorrectionLane.StepKeepsZeroed | app/src/main/java/com/asr/live/asr/AsrWavBenchmark.kt:363 | A copy of the audio is overwritten right after its output and never before |
| CorrectionLane.StepKeepsBalance | app/src/main/java/com/asr/live/asr/AsrWavBenchmark.kt:154-173 | Non-blank finals are the accepted plus the dropped |
| CorrectionLane.OfferIsAcceptedIff | app/src/main/java/com/asr/live/asr/AsrWavBenchmark.kt:154-173 | An offered segment is accepted with all it carries exactly if no job is queued, whatever the worker does; otherwise, or without a segment, the final is dropped |
| CorrectionLane.RunsAreValid | app/src/main/java/com/asr/live/asr/AsrWavBenchmark.kt:323-394 | All of this holds after every interleaving of the two threads |
| CorrectionLane.SettledIffOffersTaken | app/src/main/java/com/asr/live/asr/AsrWavBenchmark.kt:347-368 | Once the worker is gone, by leaving its loop or by an interruption, every accepted job has its one output, counted and overwritten, exactly when the worker took a job after every offer |
| CorrectionLane.SettledIffOffersSeen | app/src/main/java/com/asr/live/asr/AsrWavBenchmark.kt:347-368 | For a worker that left its loop that is exactly when every segment was offered before its last look at the queue |
| CorrectionLane.ClosedLaneSettles | app/src/main/java/com/asr/live/asr/AsrWavBenchmark.kt:384-393 | If nothing is offered after closing, a worker that has left has settled everything |
| CorrectionLane.OfferAfterExitIsStranded | app/src/main/java/com/asr/live/asr/AsrWavBenchmark.kt:376-382 | A job offered after the worker left is accepted and never answered |
| CorrectionLane.InterruptionStrands | app/src/main/java/com/asr/live/asr/AsrWavBenchmark.kt:365-367 | The condition can fail for an interrupted worker without any late offer: a job stays unanswered with its audio intact |
| CorrectionLane.WorkerCanStep | app/src/main/java/com/asr/live/asr/AsrWavBenchmark.kt:347-364 | Until it is gone the worker always has a next step other than an interruption |
| CorrectionLane.DrainEnds | app/src/main/java/com/asr/live/asr/AsrWavBenchmark.kt:347-391 | Once the lane is closing and nothing more is offered, the worker takes at most twelve more steps in any interleaving, and has none left only when it is gone |
| VttMerge.LargestOverlap | scripts/benchmark/prepare_youtube_robustness.py:55-59 | The largest number of the cue's first keys that are the last keys so far |
| VttMerge.LargestOverlapIsShortest | scripts/benchmark/prepare_youtube_robustness.py:62-63 | Appending the rest is the shortest way to end with the cue's keys |
| VttMerge.ShortestExtensionIsUnique | scripts/benchmark/prepare_youtube_robustness.py:62-63 | There is only one shortest way |
| VttMerge.RepeatAppendsNothing | scripts/benchmark/prepare_youtube_robustness.py:60-61 | A cue that is already at the end appends nothing |
| VttMerge.AppendCue | scripts/benchmark/prepare_youtube_robustness.py:52-63 | A cue appends the end of its words, as few as let its keys come last, and the keys stay the normalisation of the words |
| VttMerge.Assemble | scripts/benchmark/prepare_youtube_robustness.py:47-63 | Every cue in turn appends the end of its words with the shortest extension of the keys, the result is the words so assembled, and every cue appears contiguously in it |
| DecodeTelemetry.PushSample | app/src/main/java/com/asr/live/asr/DecodeTelemetry.kt:34-35 | A bounded deque holds the last samples of everything pushed |
| DecodeTelemetry.DecodeTelemetry.Record | app/src/main/java/com/asr/live/asr/DecodeTelemetry.kt:29-36 | Calls, total, maximum and window describe the history with the new duration, negative ones as zero |
| DecodeTelemetry.DecodeTelemetry.Snapshot | app/src/main/java/com/asr/live/asr/DecodeTelemetry.kt:38-45 | The snapshot is exact for the engine's history; p50 and p95 are those percentiles of the sorted window, p50 <= p95 <= max and mean <= max |
| DecodeTelemetry.DecodeStatsAccumulator.Retire | app/src/main/java/com/asr/live/asr/DecodeTelemetry.kt:55-60 | Totals are exact for all engines retired so far, and the window is what their windows retain |
| DecodeTelemetry.DecodeStatsAccumulator.AddRetiredSamples | app/src/main/java/com/asr/live/asr/DecodeTelemetry.kt:59-75 | The loop keeps the end of old window and new samples together |
| DecodeTelemetry.DecodeStatsAccumulator.Snapshot | app/src/main/java/com/asr/live/asr/DecodeTelemetry.kt:62-70 | The session snapshot, an active engine included, is exact for calls, total, mean and maximum; percentiles are those of the retained window, which is returned sorted |
| DecodeTelemetry.PercentilesOrdered | app/src/main/java/com/asr/live/asr/DecodeTelemetry.kt:63-69 | Percentiles of any part of a history are ordered and bounded by its maximum |
| DecodeTelemetry.PercentileRanks | app/src/main/java/com/asr/live/asr/DecodeTelemetry.kt:40-41 | The reported duration splits the unsorted window: as many as the floor of size times p, and at least one, are at most as long, itself among them, and the rest are at least as long |
| DecodeTelemetry.LargeWindowsRetain | app/src/main/java/com/asr/live/asr/DecodeTelemetry.kt:49-75 | With windows at least as large, the accumulator holds the last durations of the whole session across any rebuilds |
| DecodeTelemetry.WindowExactIff | app/src/main/java/com/asr/live/asr/DecodeTelemetry.kt:16-75 | That holds for all sessions exactly when the engines' windows are at least as large |
| Sorting.SortBySorts | scripts/benchmark/prepare_fleurs.py:85 | Sorting gives an ascending permutation |
| Sorting.SortByIsStable | scripts/benchmark/prepare_fleurs.py:85 | Elements that tie keep their order |
| Sorting.SortedUnique | scripts/benchmark/prepare_fleurs.py:85 | Without ties there is one way to sort |
| ChooseRows.BinsAreRuns | scripts/benchmark/prepare_fleurs.py:86-88 | The ten bins are consecutive runs that tile the rows, with lengths that differ by at most one |
| ChooseRows.BinsAreTenths | scripts/benchmark/prepare_fleurs.py:86-88 | A row is in bin k exactly if k tenths of the rows, and not k + 1 tenths, come before it |
| ChooseRows.FillBins | scripts/benchmark/prepare_fleurs.py:86-88 | The loop that appends each row to its bin produces those runs |
| ChooseRows.DrawTakes | scripts/benchmark/prepare_fleurs.py:93-94 | A bin gives its quota, or all it has, of its own rows |
| ChooseRows.DrawTakesLowestRanks | scripts/benchmark/prepare_fleurs.py:94 | The rows a bin does not give have no lower rank than those it gives |
| ChooseRows.ChooseRows | scripts/benchmark/prepare_fleurs.py:82-95 | The caller's rows are left sorted, also when the count is refused, and the result is the specified selection |
| ChooseRows.ChosenMeetsCount | scripts/benchmark/prepare_fleurs.py:82-95 | A count is refused exactly when it is no multiple of ten; the result is in the order of duration and identifier, takes each row at most once, and has `count` rows exactly when there are that many, the same number from each bin |
| ChooseRows.ChosenIgnoresOrder | scripts/benchmark/prepare_fleurs.py:85-95 | With distinct keys the result does not depend on the order of the input |
| Pareto.BothAreStrictOrders | scripts/benchmark/summarize_asr_sweep.py:33-35 | Both dominance relations are irreflexive and transitive over the reals |
| Pareto.AsrDirections | scripts/benchmark/summarize_asr_sweep.py:33-35 | Lowering any one of the five figures alone dominates, and raising any never does |
| Pareto.MtDirections | scripts/benchmark/summarize_translation.py:26-31 | Raising either score or lowering the median alone dominates, the reverse never does, and the 95th percentile plays no part |
| Pareto.MarkPareto | scripts/benchmark/summarize_asr_sweep.py:51-53 | Each row's flag is set in place to whether no row under another identifier dominates it, and nothing else changes |
| Pareto.IsDominated | scripts/benchmark/summarize_asr_sweep.py:52-53 | The search over the other identifiers is decided by the measurements alone, not by flags already set |
| Pareto.OneMoreRow | scripts/benchmark/summarize_asr_sweep.py:51-53 | One more row decides against another exactly if it has another identifier and dominates it |
| Pareto.KeptRowDominates | scripts/benchmark/summarize_asr_sweep.py:51-53 | Every row left out is dominated by a row that is kept |
| Pareto.FrontierIsAntichain | scripts/benchmark/summarize_translation.py:45-46 | Something is kept whenever there is a row, and with distinct identifiers no kept row dominates another |
| Pareto.DroppedRowIsIrrelevant | scripts/benchmark/summarize_translation.py:45-46 | Removing a row that is left out changes no other decision |
| DeviceCorpus.ValidateChunks | scripts/benchmark/validate_device_corpus.py:51-70 | Chunks are accepted exactly when they start at 0, follow one another without gaps within the clock tolerance, and end at the frame count |
| DeviceCorpus.ValidateCapture | scripts/benchmark/validate_device_corpus.py:34-70 | A capture is accepted exactly when its mode, counts, interval and chunks are in order |
| DeviceCorpus.TraceAdvances | scripts/benchmark/validate_device_corpus.py:57-68 | Positions and timestamps never go back along an accepted trace |
| DeviceCorpus.TraceTiles | scripts/benchmark/validate_device_corpus.py:57-70 | Every sample of the recording is in exactly one chunk, and no chunk reaches outside |
| DeviceCorpus.CaptureConserves | scripts/benchmark/validate_device_corpus.py:34-70 | An accepted capture's chunks hold as many samples as were captured, saved and are in the file, and none was dropped |
| DeviceCorpus.DriftIsBounded | scripts/benchmark/validate_device_corpus.py:63-66 | Chunk k's clock is within k times 250 ms of the sample count |
| DeviceCorpus.DriftAccumulates | scripts/benchmark/validate_device_corpus.py:63-66 | For every k some accepted trace reaches that bound |
| DeviceCorpus.ValidateCorrectionSlices | scripts/benchmark/validate_device_corpus.py:73-84 | Segments are accepted exactly when they are in bounds, in order, and carry the hash of their own samples |
| DeviceCorpus.SlicesAreDisjoint | scripts/benchmark/validate_device_corpus.py:75-84 | Accepted segments are pairwise disjoint |
| DeviceCorpus.Collect | scripts/benchmark/validate_device_corpus.py:153-162 | Collection stops exactly at a repeated identifier; otherwise each split's set holds exactly its hashes |
| DeviceCorpus.SplitsAreDisjoint | scripts/benchmark/validate_device_corpus.py:163-167 | The pairwise comparison decides whether any two splits share a hash |
| DeviceCorpus.ValidateManifest | scripts/benchmark/validate_device_corpus.py:146-168 | Reports are accepted exactly when there are some, no identifier repeats, and no audio file is in two splits |

## Left out

- llama.cpp, ONNX Runtime, SentencePiece and the Parakeet recogniser: unknown functions, with only the assumptions stated in `Llama` and `Opus.CachedBranchAgrees`.
- A context lost to a failed CPU reload: the engine then has no context, and requests on it are outside the contract, as they would dereference a null pointer; a run ends there.
- `resetCancellation` during a request: cancellation may arrive at any read, but the flag is cleared only between requests.
- Several polls of the flag within one decode, and clock readings that only feed the microsecond counters: one poll stands for all, and the world counts only readings that decide something.
- The mutex around each request: the model serves one request at a time, which is what the mutex ensures.
- The pieces around the OPUS decoder (splitting the source text, its 383-piece limit, joining the result): SentencePiece calls with an error return each.
- A second rendering or tokenisation into a buffer that disagrees with the first about the length of the chat: rendering is a function of its inputs; the disagreement about the token count is modelled.
- Backend descriptions, offloaded-layer counts, device memory and the microsecond counters of the statistics: reporting only.
- CorrectionLane.RunsAreValid: modelled on values, so the locking inside the bounded queue and the aliasing of sample arrays are not captured; a job's buffer is either intact or overwritten. Queue and decode times, the 30-second join and the ordering of two late `closeAndDrain` calls are left out too.
- `should_translate` and its use in `run_one`: thresholds on length and time that one branch settles.
- DecodeTelemetry.PercentilesOrdered: percentile positions use exact reals where the program multiplies doubles, and 64-bit overflow of nanosecond totals is not modelled.
- DeviceCorpus.ValidateChunks: chunk durations are exact at 16 kHz, which is the only rate that passes inspection; the rounding of quotients beyond 2^53 is not modelled.
- Pareto.BothAreStrictOrders: over reals, so not-a-number figures are not modelled.
- Opus.MaxElement: logits are reals or minus infinity, so not-a-number logits are not modelled.
- Parsing of VTT, JSON, WAV and parquet files, Unicode normalisation, hashing and downloads: input and output; words, keys, ranks and hashes are parameters.
- Policy thresholds of the sweep summaries, thermal and memory sampling, energy bounds and wall-clock pacing.
- Android activities, JNI marshalling, QNN service code and the Kotlin classes of the live caption session.
