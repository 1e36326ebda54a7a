# Models of Emscripten's locks, caches, marshalling, message queue, source maps and accounting

This project models the parts of Emscripten that carry a protocol or an algorithm of their own, and
proves what they keep. `dafny verify dfyconfig.toml` checks all of it.

Code that several processes or threads run at once is a state machine: a total function takes one
step of one participant, a run is any sequence of events, and every theorem holds of every run.
Code that one caller runs is a class or a method with the loops of the original, proved equal to a
function; the theorems are about that function.

- `FileLock.dfy`: the lock file of `UnixFileLock`, one system call a step, with crashes between any
  two calls, and the abstract `Mutex` that it refines. `SharedLock`, `Cache` and `CachedFile` know
  the lock file only as a `Mutex`.
- `ReentrantLock.dfy`: the counter of `BaseFileLock`, shared by the threads of a process.
- `SharedLock.dfy`: the lock objects of several processes on one lock file.
- `Cache.dfy`: `acquired_count` and the create-once `cache.get`, for any number of processes with
  nested calls and crashes.
- `CachedFile.dfy`: `get_cached_file`, with a lock for each file, a pruner, and crashes.
- `CacheRuns.dfy`, `CachedFileRuns.dfy`: what calls of both do when nothing runs beside them.
- `AudioWorklet.dfy`: how an audio worklet call is laid out on the wasm stack, in 32-bit words, and
  how its outputs are read back.
- `EmrunQueue.dfy`, `EmrunWire.dfy`, `EmrunExit.dfy`: emrun's message queue, the encoding of a line
  on its way from the page, and the exit handshake over a network that reorders.
- `Vlq.dfy`, `SourceMap.dfy`, `AddressWalk.dfy`, `PathSplit.dfy`: the base64 VLQ numbers of ECMA-426
  in Python and in JavaScript's 32-bit arithmetic, the two readers of wasm source maps, and the two
  algorithms of `empath-split` on top of them, which `EmpathSplit.dfy` puts together.
- `MemoryProfiler.dfy`: the running totals of the memory profiler against the live blocks.
- `TrimBody.dfy`: how the body of an `EM_ASM` block is trimmed.
- `Wrappers.dfy`, `Sorting.dfy`, `OrderedDict.dfy`, `Utils.dfy`: options, results, a stable sort,
  Python's dict, and path normalization.

Where the code and what one would expect of it differ, the code is modelled and the difference is a
theorem with its exact condition:

- A `BaseFileLock` whose acquire times out while another thread releases keeps the file lock with
  counter 0 (`LeakIff`, `TimeoutCanLeak`); the next use heals it (`LeakHeals`).
- A process that dies between the truncation of a cached file and the end of its text leaves a
  file that the next caller takes for whole; any other crash does no harm (`CrashIsHarmlessIff`).
- A cache limit of 0 prunes nothing, since `files[:-0]` is empty (`PruneSparesNewest`).
- A printed line that contains `%u` never reaches emrun's log: `unquote_u` calls `decode` on a
  string (`PostRoundTrip`, `ExitMeansAllLogged`).
- emrun logs out of order exactly if a number arrives while the same number is queued
  (`DueRisingIffNeverRequeued`), as after a page reload, which starts the numbers anew; and its
  expected number goes back exactly in the calls that `ExpectedFallsIff` gives.
- JavaScript misreads source map deltas of magnitude 2^30 and more (`JavaScriptReadsBackIff`); a
  source at offset 0 is found by JavaScript only (`ReadersAgreeOnMap`).
- A function body of fewer than two bytes is given the source of the function before it
  (`TinyBodyTakesPrevious`, `FailsIffFirstIsTiny`). No valid module has one: a body holds at least
  its count of locals and its `end`.
- A listed path takes the functions of an inner listed path whose text sorts before its own
  (`InnermostWinsIff`). Among texts as pathlib prints them that happens only to `.`
  (`CanonicalSortsLaterIff`); `./a/b` below `a` is another case (`DottedTextLoses`).
- The memory profiler miscounts a zero-size pointer that is handed out again while it is live, and
  one without a location (`AlwaysExactIff`, `ZeroSizeCountsTwice`). No allocator hands out a live
  pointer, so with an allocator the accounts are exact (`AllocatorRunsAreExact`).
- The output views of an audio worklet are not where the callback writes unless their block is a
  multiple of 16 bytes (`SchemesAgreeIff`).

## Model

| member | source | states |
|---|---|---|
| `FileLock.MutualExclusion` | tools/filelock.py:389-416 | over every interleaving of system calls and crashes, at most one agent has its lock descriptor set |
| `FileLock.UnlinkRemovesOwnFile` | tools/filelock.py:410-416 | the unlink of a release never fails and removes the releaser's own inode; nothing else takes the path away, so another holder's file stays |
| `FileLock.RefinesMutex` | tools/filelock.py:389-416 | every system call or crash is one action of the abstract mutex by the same agent |
| `FileLock.OwnerIsHolder` | tools/filelock.py:398-407 | wherever the invariant holds, the abstract owner is exactly the agent past the link-count test |
| `FileLock.AttemptAloneSucceedsIffUnlocked` | tools/filelock.py:389-408 | an undisturbed attempt gets the lock exactly if nobody flocks the inode the path names, and otherwise changes nothing |
| `FileLock.CrashRecovery` | tools/filelock.py:389-408 | if no living agent owns a flock, the first undisturbed attempt succeeds whatever files crashes left |
| `FileLock.OwnerCrashFreesLock` | tools/filelock.py:389-408 | while an agent holds the lock no other attempt succeeds, and after its crash the first one does |
| `FileLock.ReleaseAloneFreesLock` | tools/filelock.py:410-416 | an undisturbed release leaves no lock file and no flock of its own, and other flocks untouched |
| `FileLock.CallsEnd` | tools/filelock.py:389-416 | whatever the others do, each step of an attempt or a release brings its agent nearer to idle or holding |
| `FileLock.UnixFileLock.Acquire` | tools/filelock.py:389-408 | the method is exactly one attempt of the protocol |
| `FileLock.UnixFileLock.Release` | tools/filelock.py:410-416 | the method is exactly one release of the protocol, and raises, still clearing the descriptor, if the lock file is gone |
| `ReentrantLock.CounterCountsSessions` | tools/filelock.py:265-327 | the counter is the number of threads waiting, holding, or timed out and not yet undone; a holder implies the file lock is held |
| `ReentrantLock.ReleaseDropsLockIffLast` | tools/filelock.py:313-325 | a release gives the file lock back exactly if no other session is counted |
| `ReentrantLock.LockedUntilLastRelease` | tools/filelock.py:313-325 | no other event ever gives the file lock back |
| `ReentrantLock.LeakIff` | tools/filelock.py:292-297 | the lock is left held with counter 0 exactly when the only counted session is a timed-out one that undoes its count while the lock is held |
| `ReentrantLock.TimeoutCanLeak` | tools/filelock.py:283-295 | a concrete race of a timeout and a release that does so |
| `ReentrantLock.NoTimeoutNoLeak` | tools/filelock.py:265-327 | without timeouts and exceptions, counter 0 means unlocked |
| `ReentrantLock.LeakHeals` | tools/filelock.py:275-282 | after a leak the next session enters without polling and its release gives the lock back |
| `ReentrantLock.AttemptOutcomes` | tools/filelock.py:271-298 | a refused attempt changes nothing, a granted one gets the session in, and one timed out or interrupted ends uncounted |
| `ReentrantLock.BaseFileLock.Acquire` | tools/filelock.py:265-298 | called alone, the polling loop succeeds exactly if the lock was held already or an attempt succeeds, counts one more if so, and leaves the fields alone if it times out |
| `ReentrantLock.BaseFileLock.Release` | tools/filelock.py:313-325 | called alone, it counts down and drops the file lock exactly at 0; an unlocked object is left alone |
| `SharedLock.ProcessesRunLocally` | tools/filelock.py:265-327 | each of several processes behaves as its lock object does alone, so everything above holds in it |
| `SharedLock.StepUsesMutex` | tools/filelock.py:275-278 | every thread's step and every crash uses the lock file as a mutex, and the one process whose descriptor is set is its owner |
| `SharedLock.InsideExclusive` | tools/filelock.py:226-327 | threads of two processes are never inside at once, whatever times out, raises, leaks or crashes |
| `SharedLock.LastReleaseFreesFile` | tools/filelock.py:313-325 | the owner's step frees the file for the others exactly if it is a crash or the release of its last counted session |
| `SharedLock.PollTakesIffFree` | tools/filelock.py:275-282 | a poll makes the process the owner exactly if the file is free and the system grants it, and its thread gets in |
| `Cache.StartsAreAccountedFor` | tools/cache.py:161-195 | on every run, each start of a creator died unwritten, wrote a file since erased, wrote the present file, or is running |
| `Cache.CreateOnce` | tools/cache.py:161-195 | without crashes and erasure the creator of a name starts at most once in the whole run, and never if the file was there |
| `Cache.CreatorsExclusive` | tools/cache.py:174-185 | creators never run in two processes at once; a process running one owns the file lock |
| `Cache.CountIffOwner` | tools/cache.py:29-61 | outside acquire and release, `acquired_count` is positive exactly if the process owns the file lock; the environment marker is set exactly then |
| `Cache.GetReturnsPresent` | tools/cache.py:161-195 | every get that returns, by either path, does so with the file present |
| `Cache.OnlyOwnerTouchesFiles` | tools/cache.py:146-195 | every step uses the file lock as a mutex, and files change only in steps of the lock's owner |
| `CacheRuns.GetHits` | tools/cache.py:161-172 | a get of a present file returns at once without the lock |
| `CacheRuns.GetCreates` | tools/cache.py:161-195 | a get alone that finds no file locks, starts the creator once, and returns unlocked with the file there and no other changed |
| `CacheRuns.EraseDeletes` | tools/cache.py:146-152 | an erase alone deletes exactly its file and ends unlocked |
| `CacheRuns.RegionLocks` | tools/cache.py:64-71 | a locked region alone owns the file lock during its body and gives it back after |
| `CacheRuns.NestedCallCounts` | tools/cache.py:29-50 | a call inside an owned lock is locked in one step that only counts |
| `CacheRuns.DyingGivesBack` | tools/cache.py:29-61 | a crash ends the calls of a process and frees the file lock exactly if it was its owner |
| `Cache.CacheLock.Acquire` | tools/cache.py:29-50 | the count goes up by one, and count, marker and file lock stay in step whether or not the first acquire times out |
| `Cache.CacheLock.Release` | tools/cache.py:53-61 | the count goes down by one, and the file lock is given back exactly at 0 |
| `CachedFile.CallsReturnGenerated` | tools/emscripten.py:304-340 | from any good cache, under every interleaving of getters and pruners and crashes that tear no write, a call returns what the generator gives for its key, a hit under the lock is complete, and content that warns is not in the cache |
| `CachedFile.CrashIsHarmlessIff` | tools/emscripten.py:322-325 | after a crash everyone goes on getting what the generator gives, whatever follows, if and only if the crash did not come before the end of a file's text |
| `CachedFile.StepUsesMutexes` | tools/emscripten.py:317-338 | every step of every process treats every lock as a mutex |
| `CachedFile.WaitingClimbs` | tools/emscripten.py:317-338 | a process that waits for a lock is strictly below its owner in a fixed order, so waiting forms no cycle |
| `CachedFile.SomeoneCanStep` | tools/emscripten.py:304-340 | while a process is unfinished, some unfinished process can step |
| `CachedFile.PruneSparesNewest` | tools/emscripten.py:327-338 | a prune with positive limit keeps the newest `cache_limit` entries it listed, or all; deleted and kept entries together are the list; limit 0 deletes nothing |
| `CachedFile.OnlyDoomedFilesDisappear` | tools/emscripten.py:327-338 | a file disappears only by a pruner that holds its lock and has listed `cache_limit` other entries at least as new |
| `CachedFile.ListingIsFaithful` | tools/emscripten.py:329-333 | a prune begins with exactly one entry for each file of the cache, with that file's time |
| `CachedFile.OnlyOldFilesDisappear` | tools/emscripten.py:327-338 | a file disappears only if, when its pruner listed the cache, at least `cache_limit` other files had file times not below its own |
| `CachedFile.FileTimesAreWriteTimes` | tools/emscripten.py:322-332 | a file time is that of the step that wrote the file, under the lock of the file; a finished write leaves the whole content and the time of its step |
| `CachedFileRuns.CallAlone` | tools/emscripten.py:317-325 | a call alone takes what the cache holds, or generates it and leaves it there unless it warns, so that a later call hits |
| `CachedFileRuns.PruneAlone` | tools/emscripten.py:327-340 | it then returns, with all locks free, and of more files than a positive `cache_limit` exactly `cache_limit` remain, none older than any deleted |
| `CachedFileRuns.DyingGivesBack` | tools/emscripten.py:317-338 | a crash frees exactly the locks of the process and cuts off at most the text of the file it was writing |
| `AudioWorklet.WasmAudioWorkletProcessor.constructor` | src/audio_worklet.js:39-57 | the views fit below the stack top, view n starts where the layout puts it, and the stack pointer is restored |
| `AudioWorklet.WasmAudioWorkletProcessor.CreateOutputViews` | src/audio_worklet.js:65-77 | the views are adjacent and run backwards from the stack top |
| `AudioWorklet.WasmAudioWorkletProcessor.Measure` | src/audio_worklet.js:112-132 | the measured bytes are those of all sample data to be written plus the output areas |
| `AudioWorklet.WasmAudioWorkletProcessor.MarshalInputs` | src/audio_worklet.js:159-174 | the nested loop writes the records of the inputs and all their samples, and nothing else |
| `AudioWorklet.WasmAudioWorkletProcessor.MarshalParams` | src/audio_worklet.js:177-188 | the loop writes the records and values of the parameters, and nothing else |
| `AudioWorklet.WasmAudioWorkletProcessor.MarshalOutputs` | src/audio_worklet.js:193-206 | the loop writes the output records only and advances the data pointer over the output areas |
| `AudioWorklet.WasmAudioWorkletProcessor.Marshal` | src/audio_worklet.js:112-206 | memory becomes exactly the specified layout, and the data pointer ends at the saved stack pointer |
| `AudioWorklet.WasmAudioWorkletProcessor.ReadBack` | src/audio_worklet.js:238-242 | output channels are read from the views counted down from the number needed |
| `AudioWorklet.WasmAudioWorkletProcessor.Process` | src/audio_worklet.js:93-250 | the callback runs on the layout with its arguments, the outputs are what it left under the views or untouched if it produced nothing, and the stack pointer is restored |
| `AudioWorklet.CallbackRecoversInputs` | src/audio_worklet.js:112-188 | a reader following the written records recovers exactly the inputs and the parameters, for every call that fits |
| `AudioWorklet.OnlyBlockWritten` | src/audio_worklet.js:151-206 | memory outside the allocated block, and the output areas inside it, keep their words |
| `AudioWorklet.OutputRecordTold` | src/audio_worklet.js:197-206 | the record of output o holds its channel count, the sample count, and the address of its area |
| `AudioWorklet.CallbackFindsOutputs` | src/audio_worklet.js:193-232 | a reader following the told number of records from the told address finds exactly the outputs, with their channels, sample count and adjacent areas up to the saved stack pointer |
| `AudioWorklet.NeededIsTight` | src/audio_worklet.js:112-136 | the allocation is the least multiple of 16 bytes that holds all records and samples |
| `AudioWorklet.ViewsThatFit` | src/audio_worklet.js:39-57 | the constructor makes as many views as fit beside 16 bytes, up to 64 |
| `AudioWorklet.SchemesAgreeIff` | src/audio_worklet.js:47-76 | a channel's view starts at the address the callback is told exactly if the block of views is a multiple of 16 bytes |
| `AudioWorklet.OutputsReadWhereWritten` | src/audio_worklet.js:151-243 | if so, each output channel receives the samples the callback left at the address its record gave |
| `EmrunQueue.NothingLostOrDuplicated` | emrun.py:460-521 | on every run, logged and queued messages together are exactly those that arrived |
| `EmrunQueue.QueueSortedAndShort` | emrun.py:481-484 | between calls the queue is sorted and has at most 16 messages |
| `EmrunQueue.ApplyKeepsOrder` | emrun.py:466-521 | one call keeps the due messages strictly rising and the expected number from going back, if no queued number arrives again |
| `EmrunQueue.DistinctNumbersStayInOrder` | emrun.py:460-521 | for distinct numbers, on every run with timeouts, overflows and flushes, the expected number never falls and messages not late are logged in rising order |
| `EmrunQueue.DueRisingIffNeverRequeued` | emrun.py:460-521 | on every run, the due messages with the queue flushed behind them are in strictly rising order if and only if no number ever arrives while the same number is queued |
| `EmrunQueue.ExpectedFallsIff` | emrun.py:466-521 | a call lowers the expected number exactly if it skips to a head of the queue whose run of successive numbers ends below it, or flushes a queue whose last number does |
| `EmrunQueue.RepeatedNumberRewinds` | emrun.py:498-521 | an instance: after 2, 2, 1, 3 a timeout takes the expected number from 4 to 3 |
| `EmrunQueue.ReorderBound` | emrun.py:466-484 | without timeouts the log is 1 to expected - 1 after every arrival exactly if no message is overtaken by more than 16 later ones |
| `EmrunQueue.WithinBoundAllInOrder` | emrun.py:466-521 | within that bound, once all have arrived the log is all of them in order and the queue is empty |
| `EmrunQueue.HTTPWebServer.HandleIncomingMessage` | emrun.py:466-484 | the method is the specified handling of an arrival, with its four cases and the overflow |
| `EmrunQueue.HTTPWebServer.PrintMessagesDue` | emrun.py:512-521 | the loop logs the run of due messages at the head of the queue |
| `EmrunQueue.HTTPWebServer.PrintNextMessage` | emrun.py:498-502 | skips to the head of the queue and logs what is due from there |
| `EmrunQueue.HTTPWebServer.PrintAllMessages` | emrun.py:505-508 | terminates with an empty queue |
| `EmrunWire.DecodeEncode` | src/emrun_postjs.js:68-75 | percent-decoding undoes the page's encoding of any text |
| `EmrunWire.BodyDecodes` | emrun.py:713-717 | what the server decodes, plus signs replaced first, is the posted header and the original text |
| `EmrunWire.PostRoundTrip` | emrun.py:713-748 | a printed line arrives with its number, stream and text exactly if its text lacks `%u`, and otherwise the handler dies |
| `EmrunWire.ExitRoundTrip` | src/emrun_postjs.js:46-47 | the exit request arrives with its code, and the page load notice as such |
| `EmrunWire.FreeTextArrives` | emrun.py:713-748 | a text in none of the known forms is logged as it is, unnumbered |
| `EmrunWire.BadHeaderArrivesWhole` | emrun.py:725-744 | a line whose header holds no number is logged whole, unnumbered, on the stream of its header |
| `EmrunWire.BodyTells` | src/emrun_postjs.js:68-75 | the start of the body says the stream |
| `EmrunExit.EmrunPage.Print` | src/emrun_postjs.js:68-75 | the body carries the next number, and one more request is in flight |
| `EmrunExit.EmrunPage.Done` | src/emrun_postjs.js:44-50 | the last response after the exit hook triggers the exit request |
| `EmrunExit.EmrunPage.OnExit` | src/emrun_postjs.js:61-67 | the exit hook posts at once if nothing is in flight and otherwise leaves it to the last response |
| `EmrunExit.ExitFindsNothingInFlight` | src/emrun_postjs.js:41-67 | when the page posts `^exit^` no request or response is on its way, and once it is processed the server's queue is empty |
| `EmrunExit.ExitMeansAllLogged` | src/emrun_postjs.js:41-75 | after the exit, whatever is printed later, each line printed before `^exit^` was posted is logged exactly once, or not at all if it contains `%u`, and nothing is logged that was not printed |
| `EmrunExit.ExitHappens` | src/emrun_postjs.js:44-67 | if the exit hook is among the events and nothing is in flight, the server was told to exit; it never is before the hook |
| `EmrunExit.DeliveryLeadsToExit` | src/emrun_postjs.js:41-67 | after any run with the hook, delivering what is in flight leads to the exit, with every line printed by then accounted for |
| `EmrunExit.PrintedAreLines` | src/emrun_postjs.js:60-75 | what is posted is what out and err were called with, in order, on its stream, numbered 1, 2, ... |
| `Vlq.EncodeVlq` | tools/wasm-sourcemap.py:109-116 | the loop writes the specified digits |
| `Vlq.DecodeVlq` | tools/emsymbolizer.py:131-148 | the loop computes the specified numbers, or the first bad character, in either language |
| `Vlq.PythonReadsBack` | tools/emsymbolizer.py:131-148 | unbounded arithmetic reads every integer back |
| `Vlq.JavaScriptReadsBackIff` | src/source_map_support.js:20-43 | 32-bit shifts read an integer back exactly if its magnitude is below 2^30 |
| `Vlq.RoundTrip` | tools/emsymbolizer.py:131-148 | the same for every list of integers |
| `Vlq.AlphabetIsBase64` | tools/emsymbolizer.py:128-148 | the digits are the base64 alphabet; the readers also take `=` for 64 and nothing else |
| `Vlq.DigitsOfNumber` | tools/wasm-sourcemap.py:109-116 | sign bit lowest, five bits a digit, lowest first, 32 on all digits but the last |
| `Vlq.DecodeFailsIff` | tools/emsymbolizer.py:131-148 | decoding fails exactly if some character is no digit, with the first such |
| `Vlq.UnfinishedIsDropped` | tools/emsymbolizer.py:131-148 | a number that the text breaks off is dropped |
| `SourceMap.WasmSourceMap.Parse` | tools/emsymbolizer.py:150-175 | the loop holds exactly the entries of the text, with offsets sorted, or reports the first error |
| `SourceMap.WasmSourceMap.FindOffset` | tools/emsymbolizer.py:177-198 | binary search finds the greatest offset not above the query, subject to the lower bound |
| `SourceMap.WasmSourceMap.LookupLocation` | tools/emsymbolizer.py:200-204 | the location is that of the floor entry, with what each language takes for not found |
| `SourceMap.WasmSourceMap.Lookup` | tools/emsymbolizer.py:200-210 | the answer is that location with its indexes looked up in the sources and names tables, each language's way |
| `SourceMap.InTablesNeverRaises` | tools/emsymbolizer.py:205-210 | if the indexes lie in the tables no lookup raises, and both languages look them up alike |
| `SourceMap.LookupAnswersRow` | tools/emsymbolizer.py:150-210 | from text to answer: an address gets the line and column of the row it belongs to, and its source and function from the tables; JavaScript gives nothing for a row without a source, Python nothing at offset 0 |
| `SourceMap.LookupBeforeRows` | tools/emsymbolizer.py:177-204 | an address before all rows has no answer |
| `SourceMap.BeyondTables` | tools/emsymbolizer.py:205-210 | a lookup raises exactly if it is Python's and an index lies outside a table even counted from its end; what each language finds otherwise |
| `SourceMap.FirstSegmentTells` | tools/emsymbolizer.py:150-173 | a segment counts from offset 0, source 0, line 1, column 1 and function 0, and its number of fields says what it tells |
| `SourceMap.LongSegmentDiffers` | src/source_map_support.js:45-60 | only JavaScript takes the function of a segment of more than five numbers |
| `SourceMap.FloorIsGreatestAndLast` | tools/emsymbolizer.py:177-198 | the floor entry has the greatest offset not above the query, and is the last of several there |
| `SourceMap.SearchFindsFloor` | src/source_map_support.js:77-91 | where the sorted offsets pass the query lies the floor's offset |
| `SourceMap.SplitJoin` | tools/emsymbolizer.py:155-156 | splitting at commas undoes joining |
| `SourceMap.MapRoundTrip` | tools/wasm-sourcemap.py:577-608 | Python reads back the rows written, and JavaScript does exactly if no delta reaches 2^30 |
| `SourceMap.ReadersAgreeIff` | src/source_map_support.js:62-75 | for one query the readers agree unless the floor is a sourced entry at offset 0 |
| `SourceMap.ReadersAgreeOnMap` | src/source_map_support.js:45-91 | on a written map both readers hold the same entries and agree on every query exactly if no source is mapped at offset 0 |
| `SourceMap.EmptyMap` | src/source_map_support.js:46-47 | the empty text is a map for JavaScript and an error for Python |
| `AddressWalk.WalkFunction` | tools/empath-split.py:212-222 | the loop computes the specified walk and leaves the location alone for a tiny body |
| `AddressWalk.FunctionSources` | tools/empath-split.py:203-227 | the loop over the functions records the specified source, normalized, for each in order, or fails on an unbound location |
| `AddressWalk.WalkFindsTarget` | tools/empath-split.py:212-222 | the walk down ends at the location of the greatest sourced mapping of the body, and without a source exactly if there is none it can see |
| `AddressWalk.WalkRecordsGreatestSource` | tools/empath-split.py:203-227 | a body of at least two bytes gets the source of its greatest sourced mapping after its offset; none if no mapping in it names a file |
| `AddressWalk.TinyBodyTakesPrevious` | tools/empath-split.py:203-225 | a smaller body gets whatever the function before it got |
| `AddressWalk.FailsIffFirstIsTiny` | tools/empath-split.py:203-225 | the loop fails exactly if the first body is that small, and otherwise lists each function once |
| `AddressWalk.FuncToSrcHolds` | tools/empath-split.py:203-227 | for bodies of at least two bytes the dict has an item exactly if it is the source of the last function of that name that has one |
| `AddressWalk.DictHoldsSources` | tools/empath-split.py:203-227 | for distinct names and nonzero offsets: a function has an item exactly if its body has a target, the item is the normalized source of the greatest sourced mapping after its offset, and there is no other item |
| `EmpathSplit.GetPathToFunctionsMap` | tools/empath-split.py:184-251 | the whole function: each listed path gets the functions of the sources it is the first in order to contain, or the loop fails |
| `EmpathSplit.FunctionGoesWhereItsSourceLies` | tools/empath-split.py:203-251 | end to end, a function is in the list of exactly the innermost listed ancestor of the source of its greatest sourced mapping, and in none if its body has no source |
| `PathSplit.NormalizeKeepsParts` | tools/utils.py:131-139 | normalizing a path replaces backslashes and keeps its parts |
| `Utils.SlashesAreForward` | tools/utils.py:131-139 | each backslash becomes a slash and every other character stays |
| `Utils.NormalizeHalves` | tools/utils.py:131-139 | a run of slashes becomes half as long, rounded up |
| `PathSplit.SrcToFuncs` | tools/empath-split.py:229-232 | the loop computes the specified inverse |
| `PathSplit.InvertLists` | tools/empath-split.py:229-232 | every function is listed under its source, once and nowhere else |
| `PathSplit.InvertKeepsOrder` | tools/empath-split.py:229-232 | the functions of a source are in the order of the dict |
| `PathSplit.PathToFuncs` | tools/empath-split.py:238-251 | the sweep with its visited set gives each path the functions of the sources it is the first in order to contain |
| `PathSplit.Sweep` | tools/empath-split.py:243-250 | the loop over the sources does so for one path |
| `PathSplit.TakeFrom` | tools/empath-split.py:245-250 | one source gives all its functions or none |
| `PathSplit.PathsOfFunctions` | tools/empath-split.py:229-251 | inversion and sweep together |
| `PathSplit.InnermostWinsIff` | tools/empath-split.py:233-251 | for any texts, every source goes to its innermost listed ancestor, and to none exactly if there is none, if and only if each inner path has a listed text that sorts behind the texts of its listed ancestors |
| `PathSplit.FunctionGoesToInnermost` | tools/empath-split.py:229-251 | then a function is in the list of a path exactly if that is the innermost ancestor of its source, by the text that the sweep comes to first |
| `PathSplit.ContainsIsAncestor` | tools/empath-split.py:245-246 | a path contains exactly the paths that begin with its root and parts |
| `PathSplit.ParseRender` | tools/empath-split.py:233-246 | parsing the text of a path gives the path back |
| `PathSplit.TextLessIs` | tools/empath-split.py:236-238 | texts are ordered by their first difference, a text before its extensions |
| `PathSplit.CanonicalSortsLaterIff` | tools/empath-split.py:233-238 | for texts as pathlib prints them the condition is that a listed `.` sorts before the other relative paths |
| `PathSplit.OuterIsLess` | tools/empath-split.py:233-237 | a canonical outer path is a text prefix of an inner one, unless it is `.` |
| `PathSplit.DottedTextLoses` | tools/empath-split.py:233-251 | a relative path that sorts behind `.` takes what lies under any inner path written with `./` in front |
| `MemoryProfiler.EmscriptenMemoryProfiler.OnMalloc` | src/memoryprofiler.js:172-202 | the whole new state after a malloc event |
| `MemoryProfiler.EmscriptenMemoryProfiler.OnFree` | src/memoryprofiler.js:204-235 | the whole new state after a free event |
| `MemoryProfiler.EmscriptenMemoryProfiler.OnRealloc` | src/memoryprofiler.js:237-240 | a realloc is a free followed by a malloc |
| `MemoryProfiler.EmscriptenMemoryProfiler.OnPreloadComplete` | src/memoryprofiler.js:242-244 | only the pre-run flag changes |
| `MemoryProfiler.EmscriptenMemoryProfiler.ClearAllocStats` | src/memoryprofiler.js:303 | per-site statistics and attributions are dropped, totals stay |
| `MemoryProfiler.StepKeepsExactIff` | src/memoryprofiler.js:172-244 | an event keeps total, per-site pairs, call counts and pre-run map equal to their recomputation from the live blocks, except exactly two kinds of event |
| `MemoryProfiler.AlwaysExactIff` | src/memoryprofiler.js:172-244 | over any events the accounts are exact throughout if and only if none is of those kinds |
| `MemoryProfiler.AllocatorRunsAreExact` | src/memoryprofiler.js:172-244 | with an allocator that never returns a live pointer they are always exact |
| `MemoryProfiler.AllFreedNothingCounted` | src/memoryprofiler.js:204-235 | when every block is freed every statistic is empty |
| `MemoryProfiler.CountersCountCalls` | src/memoryprofiler.js:172-235 | on every run, exact or not, the sizes are those of the live blocks and the counters count the mallocs tracked and the frees of live pointers |
| `MemoryProfiler.ZeroSizeCountsTwice` | src/memoryprofiler.js:172-182 | a zero-size pointer handed out again leaves a stale site and a wrong count |
| `TrimBody.ParenthesesMatch` | tools/emscripten.py:276-287 | the loop returns true exactly if the bracket at the first index is open until the second and closed there |
| `TrimBody.TrimAsmConstBody` | tools/emscripten.py:290-301 | the loop terminates with the specified fixpoint |
| `TrimBody.PeelShrinks` | tools/emscripten.py:293-300 | a pass that changes the body shortens it; one that does not has found no layer |
| `TrimBody.TrimmedIsBare` | tools/emscripten.py:290-301 | the result has no layer and no outer whitespace, and trimming again changes nothing |
| `TrimBody.TrimKeepsBalance` | tools/emscripten.py:290-301 | braces, and parentheses, of the result are balanced exactly if those of the body are |
| `TrimBody.TrimKeepsText` | tools/emscripten.py:290-301 | characters other than whitespace, quotes, backslashes and brackets all stay, in order |
| `TrimBody.TrimmedEdges` | tools/emscripten.py:290-301 | the result neither begins nor ends with a blank, a tab or a line break |
| `TrimBody.TrimKeepsVisible` | tools/emscripten.py:290-301 | visible ASCII characters but quotes, backslashes and brackets stay, in order |
| `TrimBody.WhiteMarginsGo` | tools/emscripten.py:290-301 | blanks, tabs and line breaks around a body make no difference |
| `TrimBody.MatchIffInsideBalanced` | tools/emscripten.py:276-287 | the first bracket's match is the last character exactly if what lies between is balanced |
| `TrimBody.BraceLayerIff` | tools/emscripten.py:297-298 | braces put around any text are taken off again exactly if the text's braces are balanced |
| `TrimBody.ParenLayerIff` | tools/emscripten.py:299-300 | the same for parentheses |
| `TrimBody.QuoteLayer` | tools/emscripten.py:295-296 | a quoted text, its quotes escaped, trims to what the text trims to |

## Left out

- Locks: `WindowsFileLock` and `SoftFileLock`, clocks and sleeping (a timeout is an outcome of a step), hard links to a lock file, locks shared through fork, deletion of lock files by outsiders, and releases with `force`, which `__del__` uses.
- `FileLock.UnixFileLock.Acquire` and `Release`: exceptions other than those of flock and of a missing lock file are not modelled.
- Cache: `FROZEN_CACHE`, an unwritable directory, `force`, deferred builds, `erase` of the whole directory, child processes that inherit the environment marker, and creators that ask again for the name they are creating.
- `cache.get`, `cache.erase_file` and `get_cached_file` are steps of state machines and not methods, because other processes act between any two of their steps; their file contents are values.
- `Cache.CacheLock.Acquire`: waits for ever without a result if the second acquire is never granted; only the calls that return are covered.
- `Cache.GetReturnsPresent`: claims existence and not completeness, because the test without the lock can see a file still being written.
- `CachedFile.CallsReturnGenerated`: a listing and its file times are one step; no file name ends in `.lock`; `cache_limit` is not negative; the generator is a function of the key; a write reaches the file in the order of its text.
- emrun: browsers, HTTP, host information, file dumps, output formatting, `--serve-after-exit`, and the blanks and underscores that `int` accepts. Strings stand for the bytes of UTF-8 text.
- `EmrunExit.ExitMeansAllLogged`: up to the exit the network delivers every request and response, in any order; what is printed after `^exit^` was posted may or may not be logged.
- `AudioWorklet.CallbackRecoversInputs`: the wasm32 layout only, parameters in the order 0 to n - 1, every input channel of the fixed length, the heap not growing; samples are opaque words.
- `AudioWorklet.WasmAudioWorkletProcessor.Process`: the callback is a function from arguments and memory to memory; debug assertions are not modelled.
- Source maps: the doubles behind JavaScript numbers above 2^53. A missing line or column reads as none in both languages.
- `SourceMap.MapRoundTrip`: the writer is the encoding of rows only; reading DWARF, finding function names and merging rows without a line are not modelled.
- `AddressWalk.WalkRecordsGreatestSource`: offset 0 is excluded, because a lower bound of 0 counts as none.
- `AddressWalk.FunctionSources`: a source index outside the sources table, which raises; the warning about functions without a source.
- `PathSplit.PathToFuncs`: the listed texts are distinct, as the paths file requires; reading that file is not modelled.
- Memory profiler: the page it draws, call stack filtering, stack watermark, heap resize and sbrk records. A realloc that fails is an event like any other.
- Everything else in the repository: compiler drivers, settings, the JavaScript runtime libraries and system libraries.
