# Maxine VFX SDK sample applications: batching, relighting and the command line

This project models four sample applications of the NVIDIA Maxine Video
Effects SDK and proves properties of the model in Dafny:

- **TritonClientApp** runs the green-screen (AI green screen, "AIGS") effect
  on a Triton inference server. Its `BatchProcess` interleaves several input
  videos into batches, one frame per live video per batch. It allocates a
  server-side state object per video and releases that state just before the
  video's last inference. Each output matte goes to a per-video writer.
- **BatchAigsEffectApp** runs the same batching locally. It allocates all the
  states up front and releases them at `bail`.
- **RelightingTritonClientApp** relights a movie or webcam stream with an HDR
  environment map on a Triton server. The model covers `processMovie` (setup
  calls, HDR list, frame loop with pause and quit, the `bail` teardown),
  `processKey` and `main`.
- **RelightingEffectApp** is the local relighting application. The model
  covers its keyboard handling (background mode, show mode, stepping through
  and pruning the HDR list, the studio shortcut), `errorStringFromCode`,
  `ReadColor`, its string helpers and `main`.

The SDK, OpenCV and the server are not modelled as code. Each of them is an
oracle given as a parameter:

- `Engine.Faults` says which setup, allocation, release and run calls fail.
- `Engine.Source` gives what each video holds, as frame sizes, and whether
  its capture and writer open.
- `RelightTriton.MovieEnv` gives the statuses of `processMovie`'s calls.

What the applications do is recorded as a log of calls (`Engine.Event`,
`RelightTriton.Call`) and a log of writes (`Engine.Write`). Images are
symbolic: `Frame(s, j)` is frame `j` of video `s`, and `Matte(s, j)` is the
effect's output for it.

Modules:

- `CStrings`: the C string helpers.
- `Flags`: `GetFlagArgVal` and the four `ParseMyArgs` loops. It has a class
  for each global flag set.
- `Scheduling`: which streams fall into which batch.
- `Engine`: the SDK and OpenCV oracle, and the `Captures` class over the
  capture array.
- `EventLog`: counting calls in a log.
- `TritonBatch` and `TritonProperties`: the Triton batch app.
- `AigsBatch` and `AigsProperties`: the local batch app.
- `BatchMain`: `main` of both batch apps.
- `RelightCommon`, `RelightTriton`, `RelightEffect`, `RelightMain`: the two
  relighting apps.

The loops of the source are imperative Dafny methods. The objects they
change become classes:

- `Captures`;
- `BaseApp`, whose state vectors are sequence fields;
- `Effect`, the local app's effect; the `batchIndices` and `batchOfStates` buffers that the local app allocates are Dafny `array`s;
- the flag stores;
- `RelightApp` and `EffectApp`.

Each method is proved equal to a specification function. The properties are
lemmas about those functions.

## Model

Source paths are relative to the repository's root. The four application files are:

- `apps/TritonClientApp/TritonClientApp.cpp`
- `apps/BatchEffectApp/BatchAigsEffectApp.cpp`
- `apps/RelightingTritonClientApp/RelightingTritonClientApp.cpp`
- `apps/RelightingEffectApp/RelightingEffectApp.cpp`

| member | source | states |
|---|---|---|
| CStrings.LowerFolds | apps/RelightingEffectApp/RelightingEffectApp.cpp:258-262 | case folding in the "C" locale keeps the length, leaves no capital letter, keeps every other character, and folding twice is folding once |
| CStrings.StrCaseEqIsLowerEq | apps/TritonClientApp/TritonClientApp.cpp:104-105 | `strcasecmp(a, b) == 0` holds exactly when the case-folded strings are equal |
| CStrings.HasSuffix | apps/RelightingEffectApp/RelightingEffectApp.cpp:258-262 | true only when the string is at least as long as the suffix; `HasSuffixIsFoldedEndsWith` states exactly when |
| CStrings.HasSuffixIsFoldedEndsWith | apps/RelightingEffectApp/RelightingEffectApp.cpp:258-262 | `HasSuffix` holds iff the case-folded string ends with the case-folded suffix |
| CStrings.HasSuffixOfAppend | apps/RelightingEffectApp/RelightingEffectApp.cpp:258-262 | any string ends with itself and any case variant of itself, whatever precedes it |
| CStrings.HasOneOfTheseSuffixes | apps/RelightingEffectApp/RelightingEffectApp.cpp:267-280 | true iff some suffix of the list matches; the walk stops at the first match |
| CStrings.IsImageFile | apps/RelightingEffectApp/RelightingEffectApp.cpp:285-287 | holds iff the name ends in .bmp, .jpg, .jpeg or .png, in any case |
| CStrings.UpperCaseImageNames | apps/RelightingEffectApp/RelightingEffectApp.cpp:285-287 | "photo.PNG" and "a.JpEg" are images; "clip.mp4" is not |
| CStrings.LastIndexOf | apps/RelightingEffectApp/RelightingEffectApp.cpp:589-605 | `find_last_of('/')`: the last position holding '/', with no '/' after it, or none at all |
| CStrings.Basenamequote | apps/RelightingEffectApp/RelightingEffectApp.cpp:589-605 | the result is ` "` + the part after the last '/' + `"`, and that part contains no '/' |
| CStrings.BaseNameUnique | apps/RelightingEffectApp/RelightingEffectApp.cpp:589-605 | the last path component is unique, so the contract of `Basenamequote` fixes its result |
| CStrings.ByteOfInt32OfBytes | apps/TritonClientApp/TritonClientApp.cpp:132-138 | reading four bytes as an int and splitting it again gives back the bytes |
| CStrings.StringToFourcc | apps/TritonClientApp/TritonClientApp.cpp:131-139 | the loop's result equals the union of the first four characters, zero-padded, read as an int |
| CStrings.FourccRoundTrip | apps/TritonClientApp/TritonClientApp.cpp:131-139 | unpacking the code gives back the first four characters, zero-padded |
| CStrings.FourccIgnoresTail | apps/TritonClientApp/TritonClientApp.cpp:137 | characters after the fourth do not change the code |
| CStrings.DefaultCodec | apps/TritonClientApp/TritonClientApp.cpp:60 | the default codec "avc1" packs to 0x31637661 |
| Scheduling.ActiveComplete | apps/TritonClientApp/TritonClientApp.cpp:374-398 | the batch misses no live stream and is in ascending order |
| Scheduling.ActiveSound | apps/TritonClientApp/TritonClientApp.cpp:374-398 | every batch entry is a live stream |
| Scheduling.Batch | apps/TritonClientApp/TritonClientApp.cpp:374-398 | exactly the streams with a frame in cycle `c`, in ascending order |
| Scheduling.EndingComplete | apps/TritonClientApp/TritonClientApp.cpp:379-383 | `Ending` misses no stream that ends in the cycle, and is in ascending order |
| Scheduling.EndingSound | apps/TritonClientApp/TritonClientApp.cpp:379-383 | every stream `Ending` lists ends in the cycle |
| Scheduling.MaxLen | apps/TritonClientApp/TritonClientApp.cpp:371-418 | no stream is longer than the result, and some stream has exactly that length (0 with no streams) |
| Scheduling.BatchEmptyIff | apps/TritonClientApp/TritonClientApp.cpp:399 | a batch is empty exactly from the cycle after the longest stream ends, which is where the loop stops |
| Scheduling.BatchDistinct | apps/TritonClientApp/TritonClientApp.cpp:386 | a batch never holds a stream twice, and never holds more streams than there are |
| Scheduling.BatchShrinks | apps/TritonClientApp/TritonClientApp.cpp:379-385 | a stream that has dropped out never comes back |
| Scheduling.OwnSlot | apps/TritonClientApp/TritonClientApp.cpp:386-397 | batch slot `s` holds stream `s` exactly when streams 0..s all still have a frame |
| Scheduling.PrefixOfActive | apps/TritonClientApp/TritonClientApp.cpp:386-397 | when streams 0..p-1 are all live they fill the first p slots |
| Scheduling.EveryFrameOnce | apps/TritonClientApp/TritonClientApp.cpp:371-418 | stream `i` is in exactly as many batches as it has frames |
| Scheduling.StreamRunsLenTimes | apps/TritonClientApp/TritonClientApp.cpp:371-418 | over all the cycles that run, each stream contributes every frame it has |
| Scheduling.EndingIsLastBatch | apps/TritonClientApp/TritonClientApp.cpp:379-385 | a stream ends in cycle `c` iff it is in batch `c` and not in batch `c + 1` |
| Engine.RunOutputsSlots | apps/TritonClientApp/TritonClientApp.cpp:403 | after a run on `count` slots, slot `k < count` holds a matte iff input slot `k` held a frame, and then the matte of that very frame (else a blank); slots from `count` on keep what they held |
| Engine.OpenFault | apps/TritonClientApp/TritonClientApp.cpp:328-343 | the first input whose capture or writer fails to open decides the error (read before write); none when all open |
| Engine.OpenFaultAt | apps/TritonClientApp/TritonClientApp.cpp:328-343 | the error is that of the first input that fails, and every earlier input opened |
| Engine.Captures.Open | apps/TritonClientApp/TritonClientApp.cpp:329-330 | `open(file)` marks one capture open or closed and moves no capture |
| Engine.Captures.Read | apps/TritonClientApp/TritonClientApp.cpp:364 | `capture >> mat`: the next frame and one step on, or an empty mat at the end or on a closed capture |
| Engine.Captures.Rewind | apps/TritonClientApp/TritonClientApp.cpp:348 | `set(CAP_PROP_POS_FRAMES, 0)` moves back to frame 0 and nothing else changes |
| Engine.Captures.Release | apps/TritonClientApp/TritonClientApp.cpp:366 | `release()` closes one capture and leaves the others |
| Engine.OpenStreams | apps/TritonClientApp/TritonClientApp.cpp:328-343 | opens capture and writer `i` in turn, stops at the first failure, and returns `OpenFault` |
| TritonBatch.FirstAllocFault | apps/TritonClientApp/TritonClientApp.cpp:362-369 | the first stream with a frame whose state allocation fails, or none |
| TritonBatch.CycleStep | apps/TritonClientApp/TritonClientApp.cpp:371-419 | a cycle goes on only before the longest stream has ended, with an output buffer of one slot per stream |
| TritonBatch.StopOnFault | apps/TritonClientApp/TritonClientApp.cpp:380 | a failed release stops the cycle with its status, after the releases of the ending streams up to it |
| TritonBatch.StopOnEmpty | apps/TritonClientApp/TritonClientApp.cpp:399 | with no fault, an empty batch ends the run with success after that cycle's releases |
| TritonBatch.StopOnRunFailure | apps/TritonClientApp/TritonClientApp.cpp:403 | with no fault and a non-empty batch, a failed run ends the run with the run's status |
| TritonBatch.GoesOn | apps/TritonClientApp/TritonClientApp.cpp:403-418 | otherwise the cycle goes on: the batch is run, every member's writer gets its slot, and the output buffer holds the new mattes |
| TritonBatch.BaseApp.Setup | apps/TritonClientApp/TritonClientApp.cpp:357-360 | the status of the four setup steps is the oracle's and logs nothing; on success both state arrays hold `n` null handles and the buffers `n` blank slots |
| TritonBatch.BaseApp.InitVideoStream | apps/TritonClientApp/TritonClientApp.cpp:258 | `NvVFX_AllocateState` stores handle `H(n)` in slot `n` on success and logs the call |
| TritonBatch.BaseApp.ReleaseVideoStream | apps/TritonClientApp/TritonClientApp.cpp:259 | `NvVFX_DeallocateState` on slot `n`'s handle, logged, with the oracle's status |
| TritonBatch.BaseApp.TransferToNthImage | apps/TritonClientApp/TritonClientApp.cpp:396 | the frame lands in slot `n` of the batched input buffer and nowhere else |
| TritonBatch.BaseApp.Run | apps/TritonClientApp/TritonClientApp.cpp:246-257 | logs one run with the states named by the batch indices, in batch order; on success the first `count` output slots receive the effect of the input slots, on failure the outputs stay |
| TritonBatch.Lookahead | apps/TritonClientApp/TritonClientApp.cpp:375-383 | the lookahead read; at the end of a stream its state is released, then its capture |
| TritonBatch.ScanStream | apps/TritonClientApp/TritonClientApp.cpp:374-397 | one pass of the inner loop for stream `i`: lookahead, then the current frame, if any, checked and transferred into the next slot |
| TritonBatch.ScanCycle | apps/TritonClientApp/TritonClientApp.cpp:374-398 | the cycle's fault is `FirstCycleFault`; the releases logged are those of the streams ending in the cycle, up to the faulty one |
| TritonBatch.NextCycleCaps | apps/TritonClientApp/TritonClientApp.cpp:374-398 | the captures at the end of cycle `c` are those at the start of cycle `c + 1` |
| TritonBatch.FirstCycleFaultAt | apps/TritonClientApp/TritonClientApp.cpp:380 | the first stream whose release fails decides the cycle's fault |
| TritonBatch.FirstRead | apps/TritonClientApp/TritonClientApp.cpp:364-366 | the first read of stream `i`; an empty capture is released |
| TritonBatch.FirstState | apps/TritonClientApp/TritonClientApp.cpp:367-368 | a state for stream `i` exactly when its first read gave a frame |
| TritonBatch.Prime | apps/TritonClientApp/TritonClientApp.cpp:362-369 | every stream with a frame gets its state and first frame, and each empty capture is closed; a failed allocation stops the loop |
| TritonBatch.PrimedAll | apps/TritonClientApp/TritonClientApp.cpp:362-369 | after priming, the states of the streams of batch 0 are allocated in order and every stream holds its frame 0, if it has one |
| TritonBatch.RunCycle | apps/TritonClientApp/TritonClientApp.cpp:371-418 | one pass of `while (1)` equals `CycleStep`'s calls, writes and continuation, for cycle `c` |
| TritonBatch.RunBatch | apps/TritonClientApp/TritonClientApp.cpp:399-418 | a non-empty batch is run, written out and advanced; an empty or failed one ends the run |
| TritonBatch.WriteBatch | apps/TritonClientApp/TritonClientApp.cpp:406-411 | writer `batch_indices[i]` receives output slot `batch_indices[i]`, for each `i` in order |
| TritonBatch.Advance | apps/TritonClientApp/TritonClientApp.cpp:414-418 | each batch member's lookahead frame becomes its current frame; the others stay |
| TritonBatch.BatchProcess | apps/TritonClientApp/TritonClientApp.cpp:311-428 | the status, calls and writes equal `TritonRun` of the inputs and the oracle |
| TritonBatch.CycleLoop | apps/TritonClientApp/TritonClientApp.cpp:371-418 | the loop from cycle 0 equals the cycles' specification until one ends the run |
| Flags.GetFlagArgVal | apps/TritonClientApp/TritonClientApp.cpp:78-91 | an accepted argument starts with '-'; `GetFlagArgValOfFlagArg` and `GetFlagArgValMatched` give exactly which arguments are accepted and with what value |
| Flags.GetFlagArgValOfFlagArg | apps/TritonClientApp/TritonClientApp.cpp:78-91 | a flag written with any number of dashes, with or without a value, is accepted with the value unchanged |
| Flags.GetFlagArgValMatched | apps/TritonClientApp/TritonClientApp.cpp:78-91 | conversely, every accepted argument is such a flag with at least one dash |
| Flags.GetFlagArgValUnique | apps/TritonClientApp/TritonClientApp.cpp:78-91 | two different names never accept the same argument |
| Flags.BoolValueFolded | apps/TritonClientApp/TritonClientApp.cpp:100-108 | true iff there is no value, or it is "true", "on", "yes" or "1" in any case |
| Flags.BoolValueExamples | apps/TritonClientApp/TritonClientApp.cpp:100-108 | "YES", "On" and no value are true; "false", "0" and "" are false |
| Flags.ConvertReadsBack | apps/TritonClientApp/TritonClientApp.cpp:93-129 | a global set from a flag reads back as the flag said: the text, or "" for a bare flag; true iff bare or true/on/yes/1 in any case; for a number, its raw text, which reads as neither text nor boolean |
| Flags.FindFlag | apps/TritonClientApp/TritonClientApp.cpp:169-177 | the `\|\|` chain: the first table entry that accepts the argument, with the value it saw; none when no entry does |
| Flags.FindFlagOfFlagArg | apps/TritonClientApp/TritonClientApp.cpp:169-178 | in a well-formed table, `--name=value` selects the entry for `name` |
| Flags.ScanSingleDash | apps/TritonClientApp/TritonClientApp.cpp:184-190 | the loop over the characters equals `SingleDash`: `verbose` is set when a 'v' occurs, and the other characters are ignored |
| Flags.InputArgs | apps/TritonClientApp/TritonClientApp.cpp:193-195 | an argument is among the inputs exactly when it does not start with '-' |
| Flags.BatchParseInputs | apps/TritonClientApp/TritonClientApp.cpp:162-198 | every argument without a leading dash is an input file, in command-line order, whatever flags surround it |
| Flags.BatchParseErrs | apps/TritonClientApp/TritonClientApp.cpp:179-182 | the error count is 1 exactly when some `--help` was seen |
| Flags.BatchParseLastFlag | apps/TritonClientApp/TritonClientApp.cpp:169-178 | a flag given last sets its global to its converted value |
| Flags.BatchParseSetsFlag | apps/TritonClientApp/TritonClientApp.cpp:162-198 | whatever came before, `--name=value` or a bare `--name` given last leaves the global reading back as the flag said: `--in_file=x` gives x, a bare `--show` gives true |
| Flags.BatchFlags.ParseMyArgs | apps/TritonClientApp/TritonClientApp.cpp:162-198 | the flag store, input list and error count equal `BatchParse` of `argv[1..]` |
| Flags.BatchFlags.Examine | apps/TritonClientApp/TritonClientApp.cpp:165-195 | one pass of the loop body equals one step of `BatchParse` |
| Flags.RelightParseSnoc | apps/RelightingTritonClientApp/RelightingTritonClientApp.cpp:224-275 | one more argument after a pass that did not stop is one more loop step |
| Flags.RelightParseStopsAtHelp | apps/RelightingTritonClientApp/RelightingTritonClientApp.cpp:260-262 | the loop returns at the first help request, and nothing after it is parsed |
| Flags.RelightParseCode | apps/RelightingTritonClientApp/RelightingTritonClientApp.cpp:222-277 | the code is 0 or 411, and 411 exactly when some argument asks for help and is not a table flag |
| Flags.RelightParseSetsFlag | apps/RelightingTritonClientApp/RelightingTritonClientApp.cpp:222-277 | unless an earlier argument asked for help, a table flag given last leaves code 0 and its global reading back as the flag said |
| Flags.RelightParseIgnoresInputs | apps/RelightingTritonClientApp/RelightingTritonClientApp.cpp:227-228 | arguments without a leading dash are skipped: removing them changes nothing |
| Flags.RelightFlags.Examine | apps/RelightingTritonClientApp/RelightingTritonClientApp.cpp:225-274 | one pass: a table flag, a help request, or the single-dash characters; anything else is skipped |
| Flags.RelightFlags.ParseMyArgs | apps/RelightingTritonClientApp/RelightingTritonClientApp.cpp:222-277 | the store and return code equal `RelightParse` of `argv[1..]` |
| Flags.TritonTableWellFormed | apps/TritonClientApp/TritonClientApp.cpp:169-177 | the Triton batch flags have recognisable, pairwise different names, so each flag selects its own entry |
| Flags.AigsTableWellFormed | apps/BatchEffectApp/BatchAigsEffectApp.cpp:159-165 | the same for the local batch app's flags |
| TritonProperties.EndingCount | apps/TritonClientApp/TritonClientApp.cpp:379-383 | a stream ends in one cycle only, and is listed once when it does |
| TritonProperties.ActiveCount | apps/TritonClientApp/TritonClientApp.cpp:385-397 | a batch lists each live stream once |
| TritonProperties.NothingEnds | apps/TritonClientApp/TritonClientApp.cpp:399 | no stream is live once the longest one has ended |
| TritonProperties.CleanCycles | apps/TritonClientApp/TritonClientApp.cpp:371-418 | with no failures, the cycles from `c` on succeed and make exactly the calls of `CleanEvents` |
| TritonProperties.CleanRun | apps/TritonClientApp/TritonClientApp.cpp:311-428 | in a clean run, every stream with a frame gets a state; each cycle releases the streams that end in it and runs its batch; the run succeeds |
| TritonProperties.CleanStart | apps/TritonClientApp/TritonClientApp.cpp:357-369 | when all inputs open and every allocation succeeds, the states of batch 0 are allocated, then the cycles run |
| TritonProperties.SegmentCounts | apps/TritonClientApp/TritonClientApp.cpp:374-403 | one clean cycle, for stream `i`: one run holding its state if it is in the batch, one release if it ends there, no allocation |
| TritonProperties.NoCleanEvents | apps/TritonClientApp/TritonClientApp.cpp:399 | the cycles after the longest stream's end make no calls |
| TritonProperties.CleanEventsNext | apps/TritonClientApp/TritonClientApp.cpp:371-418 | one clean cycle in terms of the cycles after it |
| TritonProperties.CleanRunsWith | apps/TritonClientApp/TritonClientApp.cpp:386-403 | stream `i` is in the batch of each of its cycles from `c` on |
| TritonProperties.CleanRunCount | apps/TritonClientApp/TritonClientApp.cpp:403 | one run per cycle, up to the end of the longest stream |
| TritonProperties.CleanDeallocs | apps/TritonClientApp/TritonClientApp.cpp:380 | a stream still live in cycle `c` is released exactly once from `c` on |
| TritonProperties.CleanHasNoAlloc | apps/TritonClientApp/TritonClientApp.cpp:371-418 | the cycles of a clean run allocate nothing |
| TritonProperties.StreamInLenRuns | apps/TritonClientApp/TritonClientApp.cpp:371-418 | a stream with `L` frames is in exactly `L` runs; a clean run makes one run per cycle up to the longest stream |
| TritonProperties.AllocReleaseOnce | apps/TritonClientApp/TritonClientApp.cpp:362-418 | in a clean run every allocated state is released exactly once; a stream without a frame gets neither |
| TritonProperties.CleanSplit | apps/TritonClientApp/TritonClientApp.cpp:371-418 | the calls of a clean run split at any cycle |
| TritonProperties.ReleaseBeforeLastRun | apps/TritonClientApp/TritonClientApp.cpp:380-381 | stream `i` is released in the cycle of its last frame, before that cycle's run (which still uses the state); no earlier cycle releases it and no later run uses it |
| TritonProperties.ContinueForm | apps/TritonClientApp/TritonClientApp.cpp:399-418 | a cycle that goes on had no fault, a non-empty batch and a successful run |
| TritonProperties.CycleKeepsOlder | apps/TritonClientApp/TritonClientApp.cpp:403-411 | each cycle that goes on leaves only mattes of cycles up to its own in the output buffer |
| TritonProperties.BlankIsOlder | apps/TritonClientApp/TritonClientApp.cpp:357-358 | the output buffer starts blank |
| TritonProperties.Routing | apps/TritonClientApp/TritonClientApp.cpp:406-411 | in a cycle that goes on, live stream `s`'s writer gets the matte of its own frame iff no stream below `s` has ended |
| TritonProperties.OneWritePerStream | apps/TritonClientApp/TritonClientApp.cpp:406-411 | each cycle writes one frame to the writer of every stream in its batch |
| TritonProperties.StaleRoutingExample | apps/TritonClientApp/TritonClientApp.cpp:406-411 | two streams of lengths 1 and 2, from blank buffers: cycle 0 writes each stream its frame-0 matte; in cycle 1, stream 1's writer gets its matte of frame 0 again, and the matte of frame 1 sits in slot 0 |
| TritonProperties.MismatchLeaksExample | apps/TritonClientApp/TritonClientApp.cpp:389-395 | a frame-size mismatch bails before any release, so both states leak |
| TritonProperties.ReleaseFailureExample | apps/TritonClientApp/TritonClientApp.cpp:380 | a failed release ends the run before the stream's last inference, yet the run reports success |
| TritonProperties.AllocFailureExample | apps/TritonClientApp/TritonClientApp.cpp:368 | a failed state allocation ends the run with success and no calls recorded |
| AigsBatch.FirstAllocFailure | apps/BatchEffectApp/BatchAigsEffectApp.cpp:284-288 | the first of the `m` state allocations that fails, or none |
| AigsBatch.FirstMismatch | apps/BatchEffectApp/BatchAigsEffectApp.cpp:314-321 | the first stream that reads a mismatched frame in cycle `c`, or none |
| AigsBatch.CyclePass | apps/BatchEffectApp/BatchAigsEffectApp.cpp:300-342 | a cycle goes on only before the longest stream ends, and logs nothing or exactly one run on the states of its batch |
| AigsBatch.Allocated | apps/BatchEffectApp/BatchAigsEffectApp.cpp:284-288 | how many allocations succeed before the first failure; all `n` when none fails |
| AigsBatch.Effect.Init | apps/BatchEffectApp/BatchAigsEffectApp.cpp:278-281 | the setup status is the oracle's; on success the configuration call is logged, on failure nothing changes |
| AigsBatch.Effect.AllocateState | apps/BatchEffectApp/BatchAigsEffectApp.cpp:284-288 | `NvVFX_AllocateState` for stream `i`: handle `H(i)` on success, and the call logged |
| AigsBatch.Effect.DeallocateState | apps/BatchEffectApp/BatchAigsEffectApp.cpp:345-348 | `NvVFX_DeallocateState` logged; its status is ignored |
| AigsBatch.Effect.TransferToNthImage | apps/BatchEffectApp/BatchAigsEffectApp.cpp:322 | the frame lands in slot `n` of the batched input buffer and nowhere else |
| AigsBatch.Effect.Run | apps/BatchEffectApp/BatchAigsEffectApp.cpp:329-334 | batch size, state array and `NvVFX_Run`; the SDK reads the first `\|states\|` entries and fills that many output slots |
| AigsBatch.CursorSkip | apps/BatchEffectApp/BatchAigsEffectApp.cpp:305 | a closed capture has no frame this cycle and stays as it is |
| AigsBatch.CursorRelease | apps/BatchEffectApp/BatchAigsEffectApp.cpp:306-309 | a read past the last frame releases the capture |
| AigsBatch.CursorRead | apps/BatchEffectApp/BatchAigsEffectApp.cpp:306 | a successful read yields frame `c` of the stream and moves its capture one frame on |
| AigsBatch.ScanStream | apps/BatchEffectApp/BatchAigsEffectApp.cpp:303-325 | one pass of the inner loop: a closed capture is skipped, an exhausted one released; otherwise the frame is checked and goes into the next slot |
| AigsBatch.FirstMismatchAt | apps/BatchEffectApp/BatchAigsEffectApp.cpp:314-321 | the first stream that reads a mismatched frame decides `FirstMismatch` |
| AigsBatch.ScanCycle | apps/BatchEffectApp/BatchAigsEffectApp.cpp:303-325 | the inner loop's batch, captures and fault equal the cycle's specification |
| AigsBatch.WriteBatch | apps/BatchEffectApp/BatchAigsEffectApp.cpp:336-340 | writer `batchIndices[i]` receives output slot `i`, for each `i` in order |
| AigsBatch.RunCycle | apps/BatchEffectApp/BatchAigsEffectApp.cpp:300-342 | one pass of the `for (j)` loop equals `CyclePass` for cycle `c` |
| AigsBatch.CycleLoop | apps/BatchEffectApp/BatchAigsEffectApp.cpp:300-342 | the loop from cycle 0 equals the cycles' specification until one ends it |
| AigsBatch.AllocateStates | apps/BatchEffectApp/BatchAigsEffectApp.cpp:284-288 | one state per stream, in order; a failed allocation stops the loop with those allocated so far |
| AigsBatch.ReleaseStates | apps/BatchEffectApp/BatchAigsEffectApp.cpp:345-348 | every state in `arrayOfStates` is released once, in order, and the array is cleared |
| AigsBatch.Batches | apps/BatchEffectApp/BatchAigsEffectApp.cpp:290-342 | the state array, then the cycles |
| AigsBatch.Serve | apps/BatchEffectApp/BatchAigsEffectApp.cpp:284-364 | allocation, cycles, and then the `bail` releases, once the effect is set up |
| AigsBatch.BatchProcess | apps/BatchEffectApp/BatchAigsEffectApp.cpp:228-364 | the status, calls and writes equal `AigsRun` of the inputs and the oracle |
| AigsBatch.CursorStart | apps/BatchEffectApp/BatchAigsEffectApp.cpp:249-264 | freshly opened captures are at cycle 0 |
| AigsBatch.Opened | apps/BatchEffectApp/BatchAigsEffectApp.cpp:266-364 | from the first read to the end, once every capture and writer is open |
| AigsProperties.CyclesRun | apps/BatchEffectApp/BatchAigsEffectApp.cpp:300-342 | the cycles only call `NvVFX_Run`, each time on the batch of the cycle |
| AigsProperties.OwnMattesAppend | apps/BatchEffectApp/BatchAigsEffectApp.cpp:336-340 | the writes of cycle `c`, followed by those of the later cycles |
| AigsProperties.WritesOwnMatte | apps/BatchEffectApp/BatchAigsEffectApp.cpp:336-340 | every write gives a writer the matte of a frame of its own stream, for any inputs |
| AigsProperties.UptoCount | apps/BatchEffectApp/BatchAigsEffectApp.cpp:284-288 | the stream indices `0..n-1` each appear once |
| AigsProperties.RunsOnly | apps/BatchEffectApp/BatchAigsEffectApp.cpp:329-334 | a sequence of runs holds no allocation and no release |
| AigsProperties.StatesBalanced | apps/BatchEffectApp/BatchAigsEffectApp.cpp:284-348 | on every path, failed or not, each state is allocated at most once and released exactly as often as it was allocated |
| AigsProperties.ConfiguresFirst | apps/BatchEffectApp/BatchAigsEffectApp.cpp:278-281 | once the effect is set up, the first call configures it for all the streams, with model batch 8 for several streams and 1 for one |
| AigsProperties.RunsFitBuffers | apps/BatchEffectApp/BatchAigsEffectApp.cpp:291-295 | no batch is larger than the number of streams, and none holds a state twice |
| AigsProperties.CleanCycles | apps/BatchEffectApp/BatchAigsEffectApp.cpp:300-342 | with no failure and frames of one size, the cycles succeed |
| AigsProperties.CleanWritesHold | apps/BatchEffectApp/BatchAigsEffectApp.cpp:336-340 | the clean writes from cycle `c` on hold stream `s`'s matte of frame `j` exactly when `c <= j` and the stream has frame `j` |
| AigsProperties.CleanRun | apps/BatchEffectApp/BatchAigsEffectApp.cpp:228-364 | a clean run succeeds, makes one run per cycle up to the longest stream, and writes the matte of every frame of every stream to that stream's writer, and nothing else |
| AigsProperties.CleanRunsCount | apps/BatchEffectApp/BatchAigsEffectApp.cpp:300-342 | a clean run's cycles from `c` on are all runs, one per remaining cycle |
| TritonProperties.TritonMismatchStops | apps/TritonClientApp/TritonClientApp.cpp:371-395 | after cycles that went on, a frame of the wrong size in cycle `c` (with no failed release there) ends the run with `ErrMismatch`; the calls are the allocations, the clean cycles before `c`, and the releases of cycle `c` up to the first faulty stream |
| TritonProperties.TritonMismatchLeaks | apps/TritonClientApp/TritonClientApp.cpp:394-424 | such a run makes exactly `c` runs, none in cycle `c`, and never releases the state of a stream still live after cycle `c`: the bail leaks those states |
| AigsProperties.MismatchStops | apps/BatchEffectApp/BatchAigsEffectApp.cpp:314-321 | a frame of the wrong size, after cycles that went on, ends the run with `ErrMismatch` |
| BatchMain.PatternHasField | apps/TritonClientApp/TritonClientApp.cpp:443-446 | every pattern that comes out has a '%' for `snprintf` to fill |
| BatchMain.PatternCases | apps/BatchEffectApp/BatchAigsEffectApp.cpp:379-382 | a name with '%' is kept; an empty one becomes the default; a name without '%' fails iff it is shorter than four characters |
| BatchMain.PatternInsertion | apps/TritonClientApp/TritonClientApp.cpp:446 | taking the inserted field out gives back the name, and the extension stays at the end |
| BatchMain.MainRunsInputs | apps/TritonClientApp/TritonClientApp.cpp:434-448 | with a clean parse and a pattern, `BatchProcess` runs on one source per input file, in the order the files were named |
| BatchMain.MainGuards | apps/TritonClientApp/TritonClientApp.cpp:434-448 | a parse that reports errors processes nothing; a processed run got a pattern with an index field |
| BatchMain.TritonMain | apps/TritonClientApp/TritonClientApp.cpp:430-457 | the exit equals `MainAfterParse` of the parsed arguments, run through the Triton `BatchProcess` |
| BatchMain.AigsMain | apps/BatchEffectApp/BatchAigsEffectApp.cpp:366-393 | the exit equals `MainAfterParse` of the parsed arguments, run through the local `BatchProcess` |
| RelightCommon.FromVfx | apps/RelightingTritonClientApp/RelightingTritonClientApp.cpp:685 | `app_errFromVfxStatus`: `errNone` exactly for success |
| RelightCommon.WrapArithmetic | apps/RelightingEffectApp/RelightingEffectApp.cpp:900 | unsigned 32-bit arithmetic ignores multiples of 2^32, and wrapping an intermediate result changes nothing, so a chain of `unsigned` operations may wrap once at the end |
| RelightCommon.ToggleInputParity | apps/RelightingTritonClientApp/RelightingTritonClientApp.cpp:900-902 | `~m & SHOW_INPUT` is input exactly when `m` was even |
| RelightCommon.ToggleTwice | apps/RelightingTritonClientApp/RelightingTritonClientApp.cpp:893-908 | pressing a toggle key twice gives back the view |
| RelightCommon.KeyKeepsShown | apps/RelightingTritonClientApp/RelightingTritonClientApp.cpp:893-908 | no key takes the show mode outside input and output, and `i`/`o` bring any show mode back to one of them |
| RelightCommon.KeyChanges | apps/RelightingTritonClientApp/RelightingTritonClientApp.cpp:855-962 | a key changes the view iff it is a toggle key, or `o` while input is shown |
| RelightTriton.FirstSetupFailure | apps/RelightingTritonClientApp/RelightingTritonClientApp.cpp:976-988 | the first of the setup calls that fails (every earlier one succeeded), or 7 when none does |
| RelightTriton.HdrSkipSound | apps/RelightingTritonClientApp/RelightingTritonClientApp.cpp:1015-1022 | what remains is the list from its first readable file on, and everything dropped was unreadable; the status is an error iff nothing could be read, and then it is the last file's |
| RelightTriton.FramesCount | apps/RelightingTritonClientApp/RelightingTritonClientApp.cpp:1100-1149 | `frame_num` lags the reads by one exactly when the loop ends paused or broke off, and no more frames are read than the input has |
| RelightTriton.PausedReadsNothing | apps/RelightingTritonClientApp/RelightingTritonClientApp.cpp:1100 | until a key unpauses it, a paused loop reads no frame and leaves the counter alone |
| RelightTriton.FramesCalls | apps/RelightingTritonClientApp/RelightingTritonClientApp.cpp:1104-1106 | the loop only runs and synchronizes the effect |
| RelightTriton.HdrSkipFails | apps/RelightingTritonClientApp/RelightingTritonClientApp.cpp:1015-1023 | the HDR read fails iff the list is non-empty and none of its files reads |
| RelightTriton.EarlyReturnsBypassBail | apps/RelightingTritonClientApp/RelightingTritonClientApp.cpp:994-1068 | the early returns skip `bail`: the state stays allocated, the server is never disconnected, and the effect and the stream stay set; every other path disconnects and then destroys exactly what is still set (the effect, unless the retire destroyed it, then the stream), leaving nothing set |
| RelightTriton.RetireOnce | apps/RelightingTritonClientApp/RelightingTritonClientApp.cpp:1151-1174 | the state is deallocated iff it was allocated and `bail` was reached; then the deallocation is followed by one run, one sync, the null state array, the effect's destruction, the disconnect and the stream's destruction, and appears nowhere before |
| RelightTriton.TailRetire | apps/RelightingTritonClientApp/RelightingTritonClientApp.cpp:1159-1172 | the teardown deallocates iff a state is held, and then it retires the state |
| RelightTriton.PreparedRetire | apps/RelightingTritonClientApp/RelightingTritonClientApp.cpp:1029-1174 | every path after the HDR images that does not return early retires the state |
| RelightTriton.ErrorsMasked | apps/RelightingTritonClientApp/RelightingTritonClientApp.cpp:1164 | once the state is allocated and `bail` is reached, the result is that of clearing the state array, whatever failed before |
| RelightTriton.MovieResults | apps/RelightingTritonClientApp/RelightingTritonClientApp.cpp:964-1174 | `processMovie` never returns `errQuit` or `errFlag`: quitting ends like running out of frames |
| RelightTriton.SetupFailureReported | apps/RelightingTritonClientApp/RelightingTritonClientApp.cpp:976-988 | before the allocation, the failing call's status is returned; the server is disconnected, then `cleanup` destroys the effect if its creation succeeded (or it was set before) and the stream likewise, and nothing is left set |
| RelightTriton.MovieReleases | apps/RelightingTritonClientApp/RelightingTritonClientApp.cpp:753-762 | `processMovie` followed by the destructor's `cleanup` destroys the effect exactly once if it was created or already set and never otherwise, and the stream likewise, on every path |
| RelightTriton.TeardownDestroys | apps/RelightingTritonClientApp/RelightingTritonClientApp.cpp:1159-1173 | the teardown destroys the effect once if it is set (by the retire when a state is held, by `cleanup` otherwise) and the stream once if it is set |
| RelightTriton.RelightApp.constructor | apps/RelightingTritonClientApp/RelightingTritonClientApp.cpp:665-678 | output shown, nothing paused or toggled, no HDR files, no effect and no stream |
| RelightTriton.RelightApp.Cleanup | apps/RelightingTritonClientApp/RelightingTritonClientApp.cpp:753-762 | destroys the effect and then the stream, each only if set, and leaves neither set |
| RelightTriton.RelightApp.SetShowMode | apps/RelightingTritonClientApp/RelightingTritonClientApp.cpp:693 | only the show mode changes |
| RelightTriton.RelightApp.SetAutorotate | apps/RelightingTritonClientApp/RelightingTritonClientApp.cpp:694 | only autorotation changes |
| RelightTriton.RelightApp.ProcessKey | apps/RelightingTritonClientApp/RelightingTritonClientApp.cpp:855-962 | the view becomes `KeyView` of the key; `errQuit` exactly for 'q' and ESC, `errNone` otherwise |
| RelightTriton.RelightApp.SkipUnreadable | apps/RelightingTritonClientApp/RelightingTritonClientApp.cpp:1015-1022 | the HDR list and status become those of `HdrSkip`, whose soundness `HdrSkipSound` states |
| RelightTriton.RelightApp.RunFrames | apps/RelightingTritonClientApp/RelightingTritonClientApp.cpp:1100-1149 | the loop's result and view equal `Frames` from the start, about which `FramesCount` and `PausedReadsNothing` hold |
| RelightTriton.RelightApp.Setup | apps/RelightingTritonClientApp/RelightingTritonClientApp.cpp:976-988 | the calls up to the first failure, that failure's status, the state exactly when the allocation succeeded, the stream set once its creation succeeded and the effect once its creation did |
| RelightTriton.RelightApp.Finish | apps/RelightingTritonClientApp/RelightingTritonClientApp.cpp:1151-1174 | with a state, clearing the state array decides the result and the state is retired; without one, the incoming status; the server is disconnected, then `cleanup` destroys what is still set, and nothing is left set |
| RelightTriton.RelightApp.ProcessMovie | apps/RelightingTritonClientApp/RelightingTritonClientApp.cpp:964-1174 | result, calls, view, HDR list and the effect and stream left set equal `Movie`, about which the lemmas above hold |
| RelightEffect.BackgroundCycles | apps/RelightingEffectApp/RelightingEffectApp.cpp:899-901 | the background mode stays below 5, five presses return to the start, and the largest unsigned value wraps to 0 |
| RelightEffect.NextIndex | apps/RelightingEffectApp/RelightingEffectApp.cpp:914 | the next index, modulo the list size, is inside the list |
| RelightEffect.EraseFacts | apps/RelightingEffectApp/RelightingEffectApp.cpp:918 | `erase` removes one element: the others keep their order and the multiset loses that one |
| RelightEffect.EraseUnreadable | apps/RelightingEffectApp/RelightingEffectApp.cpp:915-920 | erasing an unreadable file keeps "no file reads" unchanged, in both directions |
| RelightEffect.AdvanceAsWrittenDividesByZero | apps/RelightingEffectApp/RelightingEffectApp.cpp:915-920 | as written, the loop divides by zero iff no file in the list reads; otherwise it agrees with `Advance` |
| RelightEffect.ModulusByZero | apps/RelightingEffectApp/RelightingEffectApp.cpp:919 | a one-file list whose file cannot be read reaches the modulus by zero |
| RelightEffect.AdvanceLands | apps/RelightingEffectApp/RelightingEffectApp.cpp:912-923 | the corrected loop quits iff no file reads, and then leaves the list empty; otherwise the index is on a readable file |
| RelightEffect.AdvanceKeeps | apps/RelightingEffectApp/RelightingEffectApp.cpp:915-920 | only unreadable files are erased: every readable file stays in the list |
| RelightEffect.StudioIndex | apps/RelightingEffectApp/RelightingEffectApp.cpp:903-904 | the first file whose name contains "vkl_mid.hdr", or none when no file does |
| RelightEffect.ZJumps | apps/RelightingEffectApp/RelightingEffectApp.cpp:902-923 | with the corrected index, `z` followed by the `n` code lands on the studio file |
| RelightEffect.ZAsWritten | apps/RelightingEffectApp/RelightingEffectApp.cpp:905 | as written, `z` lands on the studio file unless it is first in the list; then it stays on the current file |
| RelightEffect.ZIndexAsWrittenValue | apps/RelightingEffectApp/RelightingEffectApp.cpp:905 | one below `x` in `size_t`, cut to 32 bits, then one above in `unsigned`, is `x` |
| RelightEffect.StepAsWrittenLands | apps/RelightingEffectApp/RelightingEffectApp.cpp:914-920 | as written, the `n` code divides by zero iff no file of the list reads (an empty list included); otherwise it lands on a readable file, does not quit, and agrees with the corrected `Advance` |
| RelightEffect.ZStaysPut | apps/RelightingEffectApp/RelightingEffectApp.cpp:905 | in a list of two files with the studio file first, `z` keeps the second file shown |
| RelightEffect.ErrorStrings | apps/RelightingEffectApp/RelightingEffectApp.cpp:719-734 | each application code 1..4 has its own table entry; every other positive code gives "UNKNOWN ERROR" |
| RelightEffect.ErrorStringsDistinct | apps/RelightingEffectApp/RelightingEffectApp.cpp:724-729 | the four texts differ, so the text tells which error it was |
| RelightEffect.ErrorStringFromCode | apps/RelightingEffectApp/RelightingEffectApp.cpp:719-734 | the table search's result equals `ErrorString`, about which `ErrorStrings` holds |
| RelightEffect.ReadColorGray | apps/RelightingEffectApp/RelightingEffectApp.cpp:384-393 | "gray" in any case is mid grey, whatever `sscanf` would make of it; a failed parse leaves the colour at -1 |
| RelightEffect.EffectApp.constructor | apps/RelightingEffectApp/RelightingEffectApp.cpp:647-660 | output shown, nothing paused or toggled, background mode 0, no HDR files |
| RelightEffect.EffectApp.FindStudio | apps/RelightingEffectApp/RelightingEffectApp.cpp:903-904 | the search loop finds `StudioIndex` of the list |
| RelightEffect.EffectApp.NextHdr | apps/RelightingEffectApp/RelightingEffectApp.cpp:912-923 | corrected `n` code, with the emptiness test before the modulus: the list, index and quit flag become `Advance`'s from the next index (see `AdvanceLands`, `AdvanceKeeps`) |
| RelightEffect.EffectApp.NextHdrAsWritten | apps/RelightingEffectApp/RelightingEffectApp.cpp:912-923 | the `n` code as written: it reports the modulus by zero of line 914 or 919 exactly when `StepAsWritten` has none, and otherwise the list and index become `StepAsWritten`'s; view and background are unchanged |
| RelightEffect.EffectApp.ProcessKey | apps/RelightingEffectApp/RelightingEffectApp.cpp:845-945 | as written: the view becomes `KeyView`; `b` steps the background; `z` moves the index by line 905 (`ZIndexAsWritten`) and falls through to `n`, which follows lines 914-920; `undefined` marks the modulus by zero and is set only then; otherwise `z` and `n` return `errNone`, and other keys leave the list alone and return `errQuit` exactly for 'q' and ESC |
| RelightMain.CheckCounts | apps/RelightingTritonClientApp/RelightingTritonClientApp.cpp:1192-1209 | nothing is missing iff there is a model directory, an input or the webcam, an HDR list, and an output or a window; the webcam always brings up the window |
| RelightMain.CheckFlags | apps/RelightingTritonClientApp/RelightingTritonClientApp.cpp:1192-1209 | `show` and the error count equal `Check` of the flags, added to the parse errors |
| RelightMain.TritonMainOutcomes | apps/RelightingTritonClientApp/RelightingTritonClientApp.cpp:1177-1228 | `--help` ends `main` first; otherwise the flag error is returned iff a required flag is missing, and only then is nothing run |
| RelightMain.TritonMainReleases | apps/RelightingTritonClientApp/RelightingTritonClientApp.cpp:1177-1228 | by the time `main` has returned, the effect has been destroyed exactly once if its creation succeeded and the stream exactly once if its creation did; nothing is destroyed when nothing ran |
| RelightMain.TritonMain | apps/RelightingTritonClientApp/RelightingTritonClientApp.cpp:1177-1228 | exit and calls equal `TritonMainSpec` of the arguments, the destructor's `cleanup` included |
| RelightMain.EffectMainOutcomes | apps/RelightingEffectApp/RelightingEffectApp.cpp:1287-1340 | help and missing flags stop `main` first; otherwise an image name goes to `processImage` and anything else to `processMovie` |
| RelightMain.EffectMain | apps/RelightingEffectApp/RelightingEffectApp.cpp:1287-1340 | the exit equals `EffectMainSpec` of the arguments |

## Left out

- The logger (`NvVFX_ConfigureLogger`, the `nvCVLoggerExamples` utilities) and everything printed (`Usage`, error and status messages, the `verbose` output) change no state the model tracks.
- Floating-point state (pan, field of view, rotation rate, frame rate, `setMode`) and the keys that change only it are left out; Dafny has no native floats and nothing proved depends on them.
- Numeric flags (`strtol`, `strtof`) keep their raw text; the conversion is not interpreted.
- Flags.Convert: a numeric flag given without `=value` (a bare `--mode`, `--log_level`, `--pan`, `--vfov`, ...) hands a NULL pointer to `strtol` or `strtof`, which is undefined behaviour in C (TritonClientApp.cpp:113 and 127, BatchAigsEffectApp.cpp:114, RelightingTritonClientApp.cpp:142 and 149, RelightingEffectApp.cpp:131 and 138); the model stores it as `NumVal(None)` and promises nothing about what the program then does.
- RelightTriton.SetupOwned: a failed `NvVFX_CudaStreamCreate` or `NvVFX_CreateEffectTriton` is taken to leave its pointer as it was; what the SDK writes there on failure is not part of this model.
- Pixel data, CUDA streams (of which only the creation and destruction in RelightingTritonClientApp are logged), the image transfers and `GenerateNthOutputVizImage` are symbolic: transfers always succeed and only their placement is modelled. Their failures are left out.
- Output-frame writes of the two relighting apps, and the compositing done per frame, are left out; `processMovie`'s loop models reads, runs, syncs, keys and run failures only.
- The directory scan that fills the HDR list (`readHDRlist`, lines 785-804 of RelightingTritonClientApp.cpp) is a parameter of `MovieEnv`; the file system is not modelled.
- `processImage` and `processMovie` of RelightingEffectApp are not part of this model: `EffectMain` takes their results as parameters.
- Webcam initialisation and the camera resolution are not modelled; the webcam is a source that opens or not.
- `sscanf` in `ReadColor` is a parameter (`scanned`), not a parser.
- An `--effect` other than GreenScreen makes `BaseApp::Create` return null, and `BatchProcess` then dereferences it; the model always builds the green-screen application.
- The 1024-byte `snprintf` buffer for output names is not modelled; names never truncate.
- RelightTriton.RelightApp.RunFrames: the number of loop iterations is bounded by the length of `keys`, which stands for `waitKey`'s answers, so a loop paused forever is not modelled.
- RelightTriton.Frames: `frame_num` is unbounded; its 32-bit wrap-around after 2^32 frames is not modelled.
- RelightEffect.EffectApp.ProcessKey: after a modulus by zero (`undefined`) the model says nothing about the state, since C++ leaves it undefined.
- RelightEffect.EffectApp.ProcessKey: HDR lists of 2^32 names or more are excluded, since the index is an `unsigned`.
- RelightEffect.EffectApp.constructor: `m_hdrIndex` is not initialised by the source's constructor; the model takes its value as a parameter.
- The status text that `processKey` builds with `basenamequote` is printed and not modelled; `Basenamequote` is modelled on its own. Its index is safe in RelightingEffectApp, where `n` leaves a non-empty list or divides by zero first.
- RelightTriton.RelightApp.ProcessKey: in the Triton build, line 947 reads `m_hdrFiles[m_hdrIndex]` for `n` even though the HDR keys are compiled out. `HdrSkip` passes an empty list with success when `readHDRlist` succeeds on a directory without .hdr or .exr files (`HdrSkipSound`, case `files == []`). Then that read is out of bounds. The model does not build the status text, so it does not capture this read.
- AigsBatch.BatchProcess: a failed `NvCVImage_Alloc` of the `nvx2` staging image (line 298 of BatchAigsEffectApp.cpp) is not modelled; that allocation always succeeds.
- TritonBatch.BatchProcess: `BAIL_IF_ERR(app->InitVideoStream(i))` and `BAIL_IF_ERR(app->ReleaseVideoStream(i))` do not assign `err`, so those failures end the run with success; the model keeps this, and `AllocFailureExample` and `ReleaseFailureExample` show it.
- TritonBatch.WriteBatch: the writes read output slot `video_idx`, but the run filled slots in batch order; the model keeps this, and `Routing` and `StaleRoutingExample` state where it goes wrong.
- Flags.BatchFlags.ParseMyArgs: `--help` in the batch apps sets the error count to 1 and parsing goes on; the relighting apps return 411 (`NVCV_ERR_HELP`) at once. Both are modelled as written.
- The SDK's status codes are a symbolic datatype; their numeric values are not part of the model, so `AppCode` gives no number for them.
- RelightTriton.Movie: once the state is allocated, line 1164 overwrites `err` with the status of clearing the state array, so later errors are not reported. `ErrorsMasked` states this. `initCamera` always returns `errNone`, so the `return` at line 998 is never taken.

## Findings

| source | as written | input that shows it | evidently intended | confidence | as-written member | corrected member |
|---|---|---|---|---|---|---|
| apps/RelightingEffectApp/RelightingEffectApp.cpp:919 | `m_hdrIndex %= unsigned(m_hdrFiles.size())` right after erasing an unreadable file; when that was the last file the size is 0 | `n` pressed with the list ["a.hdr"], where "a.hdr" cannot be read | test for an empty list before the modulus, so the app quits with `errQuit` at line 921 | not executed | RelightEffect.AdvanceAsWritten (RelightEffect.ModulusByZero, RelightEffect.AdvanceAsWrittenDividesByZero, RelightEffect.EffectApp.NextHdrAsWritten) | RelightEffect.Advance (RelightEffect.AdvanceLands, RelightEffect.EffectApp.NextHdr) |
| apps/RelightingEffectApp/RelightingEffectApp.cpp:905 | `(unsigned)((i ? i : m_hdrIndex) - 1)`: when the studio file is at index 0 the index becomes `m_hdrIndex - 1`, so the `n` code after it comes back to the file already shown | `z` pressed with the list ["vkl_mid.hdr", "b.hdr"] and index 1 | the index before the studio file, wrapping to the end of the list, so that `z` always shows the studio file | not executed | RelightEffect.ZIndexAsWritten (RelightEffect.ZStaysPut, RelightEffect.ZAsWritten, RelightEffect.EffectApp.ProcessKey) | RelightEffect.ZIndex (RelightEffect.ZJumps) |
