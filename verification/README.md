# iroh.fm in Dafny

A model of the stateful cores of iroh.fm and proofs of what they keep. Each core is modelled in the form the source
has: objects whose methods update fields are classes, loops are loops, pure code is functions. Beside each class stands
the function that gives its abstract value, and the results are stated about that value, for every input, every run and
every interleaving. What an operation answers and leaves is also stated without that function, in the numbers and lists
of its input: in CacheAnswers, LibraryAlbums, LibraryIds, LyricShown, PlaylistRows, CoverFollows and ChunkLimits, and in
the lemmas of the other files. `dafny verify dfyconfig.toml` checks everything.

## The files

| files | what they model |
|---|---|
| Wrappers, Lists | optional values, minimum and maximum; lists picked from a list |
| MemoryRanges, MemoryTrack | the interval list and the 1 MiB chunks of a track in RAM |
| CacheModel, CacheInvariants, CacheAnswers, CacheRuns, CacheProtocol, AudioCache | the RAM track cache: answers, accounting, eviction, promotion, reference counts, and the object itself with the bytes it stores |
| DataSource | the data source of the Android player, served from RAM or from a stream |
| LyricsMetadata, LyricsSchedule, LyricsGate, LyricsStore | the lyrics service: queue, rate limit over crashes and restarts, stored rows and annotation jobs |
| LibraryIds, LibraryIndex, LibraryAlbums, LibraryMerge, LibraryCollisions, LibraryBuilder | the library index, built in order and in merged chunks |
| Calendar | seconds to RFC 3339 text |
| Furigana | readings with UTF-16 offsets made on the server |
| LyricSpans, LyricReadings, LyricParts, LyricShown, LyricExport, LyricTimes | rows, span lookup, ruby parts, exported lines and the active line on the client |
| DesktopPlayer | the desktop player's generations, starts and prefetches |
| Playlists, PlaylistStore, PlaylistRows | playlists: order per scope, tracks, and what is stored of both |
| LruCaches | the three byte-bounded caches |
| CoverFetches, CoverFollows | the cover fetch queue that steps aside for audio |
| ChunkedBridge, ChunkLimits | chunked messages between the web player and the Android app |

A data source, a worker, a promise or a thread that the source runs concurrently appears as steps: each step is what the
source does under one lock or between two awaits, and a run is any sequence of steps that are enabled. A run of the RAM
cache is allowed when its callers release and end only what they hold, never insert whole tracks from outside, and do
not lower the limit below what is in use. `hide` statements in proofs only limit what the verifier unfolds.

## What does not hold

Some expectations turned out not to hold of the code. Each is stated with the exact condition under which it does hold.
Where it fails over several steps or tracks, a lemma gives a concrete run or scan as well.

- Reference counts of the RAM cache are lost when the limit is lowered below what is in use and a track then completes:
  the promotion fails and the writer is forgotten (`CacheProtocol.LoweringLosesWriter`; exactly when:
  `CacheRuns.PromoteIff`, `CacheProtocol.PromoteCounts`).
- `open` of the data source answers the requested length on a miss, but never more than the file has on a hit; the two
  differ exactly when more was asked for than is left (`DataSources.OpenAnswers`). The bytes delivered do not differ.
- `put_annotations` says it never replaces a newly fetched source. That is so for the texts, not for the source link: a
  late job brings back the link it once read (`LyricsStore.LinkReverted`; exactly when: `LyricsStore.StoreRevertsLink`).
- The chunked index is not always the sequential one. For every cut it is exactly when the cut is safe
  (`LibraryCollisions.CutIff`), a condition on the names, keys and ids in the chunks alone; for the chunks that the source
  cuts, of max(tracks / threads, 256), this is `LibraryCollisions.SizeIff` and the contract of
  `LibraryBuilders.BuildIndex`. A scan that fits one chunk is always safe (`LibraryCollisions.OneChunk`); an album artist
  that first occurs in a later chunk, under an id that an earlier chunk has given to another, never is
  (`LibraryCollisions.NewNameBreaks`). Ids do collide for names that differ in ASCII case only
  (`LibraryCollisions.CaseCollides`), as in a scan of 257 tracks that any two or more threads index differently
  (`LibraryCollisions.LargeScanDiffers`), and where a colon may belong to artist or title
  (`LibraryCollisions.ColonCollides`). No cut at all matters exactly when no ids are shared
  (`LibraryCollisions.ExactCondition`).
- A stop between the two phases of a start does not stop it: the player plays a place of an empty queue
  (`DesktopPlayer.StopDuringStart`; exactly when: `DesktopPlayer.StartPlaysQueue`).
- The text of a time is an RFC 3339 date-time exactly for the years 0 to 9999 (`Calendar.TextIsRfc3339`); the first second
  after them is `Calendar.YearTenThousand`.
- A cover that is stored is not always found again: it stays exactly when it fits the whole thumbnail cache, and a larger
  one is evicted with everything else (`LruCaches.StoreThenEvictGood`).
- The names of an evicted desktop track are read back from its key exactly when the remote's name holds no NUL
  (`LruCaches.IdRoundTrip`); with a NUL, tracks of two remotes share an entry (`LruCaches.KeysCollide`).
- Cover fetches that audio interrupts do not keep the order in which they were asked for: two that fail one after the
  other come back reversed (`CoverFetches.RetryReverses`). Over a run the waiting fetches stay in order exactly when every
  retry finds only later ones waiting (`CoverFetches.OrderKeptIff`; for one step: `CoverFetches.StepSorted`).

## Model

| member | source | states |
|---|---|---|
| MemoryRanges.InsertCorrect | android/app/src/main/java/fm/iroh/android/NativeAudioCache.kt:428-449 | recording one range keeps the list sorted, disjoint, non-touching and inside [0, size), and covers exactly the union |
| MemoryRanges.InsertTotal | android/app/src/main/java/fm/iroh/android/NativeAudioCache.kt:431-448 | the covered length grows by the range's length less what it overlapped, which is what the loop adds up |
| MemoryRanges.TotalIsCardinality | android/app/src/main/java/fm/iroh/android/NativeAudioCache.kt:448 | the covered count is the number of covered bytes |
| MemoryRanges.CompleteIffWhole | android/app/src/main/java/fm/iroh/android/NativeAudioCache.kt:196-199 | the completeness test holds exactly for the single range [0, total), that is, when every byte is covered |
| MemoryRanges.CanonicalUnique | android/app/src/main/java/fm/iroh/android/NativeAudioCache.kt:432-447 | a list in canonical form is determined by the bytes it covers |
| MemoryRanges.HistoryCorrect | android/app/src/main/java/fm/iroh/android/NativeAudioCache.kt:428-449 | after any history of ranges, overlapping and in any order, the list is canonical, its union is the bytes recorded and the count is the size of that union |
| MemoryRanges.OrderIrrelevant | android/app/src/main/java/fm/iroh/android/NativeAudioCache.kt:428-449 | two histories that cover the same bytes leave the same list |
| MemoryTracks.MemoryTrack.Write | android/app/src/main/java/fm/iroh/android/NativeAudioCache.kt:32-48 | the chunked store reads as a flat array in which exactly the written bytes have changed; chunks touched for the first time are zero elsewhere |
| MemoryTracks.MemoryTrack.Read | android/app/src/main/java/fm/iroh/android/NativeAudioCache.kt:50-66 | copies exactly the flat slice of min(length, size - position) bytes; the error of an incomplete track occurs exactly when a chunk of the slice was never written |
| MemoryTracks.WrittenJoin | android/app/src/main/java/fm/iroh/android/NativeAudioCache.kt:36-47 | writing in pieces is writing the concatenation |
| CacheInvariants.TrimEnds | android/app/src/main/java/fm/iroh/android/NativeAudioCache.kt:232-240 | every trim removes only entries nobody uses, and ends within the limit or with every entry left pinned or being written |
| CacheInvariants.FreeCompleteIff | android/app/src/main/java/fm/iroh/android/NativeAudioCache.kt:337-351 | the eviction of an insertion makes room exactly when pinned and partial bytes leave it |
| CacheInvariants.FreeAnyIff | android/app/src/main/java/fm/iroh/android/NativeAudioCache.kt:363-384 | a reservation succeeds exactly when the entries in use leave room for it |
| CacheInvariants.FreeAnyOrder | android/app/src/main/java/fm/iroh/android/NativeAudioCache.kt:372-412 | eviction drops the eldest unpinned complete entries, idle partial ones only when none of those is left, and no more than it must |
| CacheInvariants.EnsurePartialKeeps | android/app/src/main/java/fm/iroh/android/NativeAudioCache.kt:242-271 | finds the partial entry of the right size, or frees room and appends an empty one, or fails; sizes stay accounted for |
| CacheAnswers.ReserveIff | android/app/src/main/java/fm/iroh/android/NativeAudioCache.kt:363-384 | a reservation succeeds exactly when it and what is in use fit the limit |
| CacheAnswers.ReserveOrder | android/app/src/main/java/fm/iroh/android/NativeAudioCache.kt:363-412 | it drops exactly the eldest entries nobody uses, idle partial ones last, and no more than it must; one above the limit drops nothing |
| CacheAnswers.EnsureIff | android/app/src/main/java/fm/iroh/android/NativeAudioCache.kt:242-271 | an entry is found or made exactly when there is one of that size, or none of another size is being written and what is in use leaves room |
| CacheAnswers.EnsureLeaves | android/app/src/main/java/fm/iroh/android/NativeAudioCache.kt:247-270 | an entry of the size, or one being written, is left as it is; otherwise the idle one goes, then the eldest nobody uses, and the new one is blank and the youngest |
| CacheAnswers.BeginIff | android/app/src/main/java/fm/iroh/android/NativeAudioCache.kt:273-297 | beginning succeeds exactly for a valid size and a stored track, or where an entry is found or made |
| CacheAnswers.BeginTakes | android/app/src/main/java/fm/iroh/android/NativeAudioCache.kt:281-295 | and takes one pin of the track or one writer of the entry, and changes nothing else |
| CacheAnswers.RecordIff | android/app/src/main/java/fm/iroh/android/NativeAudioCache.kt:169-216 | recording answers true exactly for a stored track, and for the write with which every byte is there, if pinned and partial bytes are within the limit |
| CacheAnswers.RecordAdds | android/app/src/main/java/fm/iroh/android/NativeAudioCache.kt:189-200 | a write that leaves bytes missing adds exactly the bytes it delivers to the entry, and changes nothing else |
| CacheAnswers.TouchIs | android/app/src/main/java/fm/iroh/android/NativeAudioCache.kt:68 | a read moves its entry to the young end and keeps the order of the others |
| CacheAnswers.AcquireIs | android/app/src/main/java/fm/iroh/android/NativeAudioCache.kt:127-141 | a hit becomes the youngest and gets one pin more; a miss changes nothing |
| CacheAnswers.ReleaseIs | android/app/src/main/java/fm/iroh/android/NativeAudioCache.kt:143-154 | takes back one pin if there is one, then drops the eldest entries nobody uses, as few as needed |
| CacheAnswers.EndIs | android/app/src/main/java/fm/iroh/android/NativeAudioCache.kt:299-320 | takes back one writer, or without an entry one pin, if there is one, then trims |
| CacheAnswers.ResizeIs | android/app/src/main/java/fm/iroh/android/NativeAudioCache.kt:218-240 | the new limit is between 32 and 256 MiB and at most what the heap allows; then a trim |
| CacheAnswers.FreeCompleteOrder | android/app/src/main/java/fm/iroh/android/NativeAudioCache.kt:337-351 | the eviction of an insertion drops the eldest unpinned complete entries, no more than it must |
| CacheAnswers.InsertIs | android/app/src/main/java/fm/iroh/android/NativeAudioCache.kt:322-361 | a whole track is accepted exactly when it fits beside the pinned and the partial bytes; it, or the one it would have replaced, is then the youngest |
| CacheRuns.PromoteIff | android/app/src/main/java/fm/iroh/android/NativeAudioCache.kt:201-215 | a completed track is promoted exactly when pinned and partial bytes are within the limit; within it altogether, nothing is evicted for it |
| CacheRuns.PromoteKeeps | android/app/src/main/java/fm/iroh/android/NativeAudioCache.kt:201-215 | promotion keeps the accounting, and a promoted entry takes its writers along as pins |
| CacheRuns.StepGood | android/app/src/main/java/fm/iroh/android/NativeAudioCache.kt:127-412 | every operation, inserting whole tracks included, keeps both byte counters equal to the summed sizes and leaves at most max(limit, previous usage) |
| CacheRuns.RunGood | android/app/src/main/java/fm/iroh/android/NativeAudioCache.kt:127-412 | any run of operations keeps the accounting exact |
| CacheRuns.ReachableSound | android/app/src/main/java/fm/iroh/android/NativeAudioCache.kt:127-412 | so it is exact in every state reachable from the empty cache, whatever the limit |
| CacheProtocol.PromoteCounts | android/app/src/main/java/fm/iroh/android/NativeAudioCache.kt:203-215 | a promotion keeps the counts exactly when it has no writers to lose or succeeds |
| CacheProtocol.RecordCounts | android/app/src/main/java/fm/iroh/android/NativeAudioCache.kt:169-216 | recording keeps the counts while usage is within the limit |
| CacheProtocol.StepConserves | android/app/src/main/java/fm/iroh/android/NativeAudioCache.kt:127-320 | every allowed step keeps pins plus writers equal to outstanding acquires plus begins, for every key |
| CacheProtocol.CountsConserved | android/app/src/main/java/fm/iroh/android/NativeAudioCache.kt:127-320 | over every allowed run from the empty cache: counts conserved, complete and partial keys disjoint, whatever is held is stored, usage within the limit |
| CacheProtocol.PromotionWithin | android/app/src/main/java/fm/iroh/android/NativeAudioCache.kt:201-215 | within the limit a promotion appends the track, evicts nothing and turns its writers into pins |
| CacheProtocol.CompletingWrite | android/app/src/main/java/fm/iroh/android/NativeAudioCache.kt:169-216 | in such a run every completing write, be it the first one to its track, promotes once it has an entry, evicts nothing more and turns the writers into pins |
| CacheProtocol.ResizeIff | android/app/src/main/java/fm/iroh/android/NativeAudioCache.kt:218-240 | resizing ends within the new limit exactly when the entries in use fit it |
| CacheProtocol.LoweringLosesWriter | android/app/src/main/java/fm/iroh/android/NativeAudioCache.kt:204-230 | a run with a lowered limit in which a completing write drops the track and forgets its writer |
| AudioCaches.PartialMemoryTrack.AddMemoryRange | android/app/src/main/java/fm/iroh/android/NativeAudioCache.kt:428-449 | the loop over the ranges, the sort and the counter do exactly what recording means |
| AudioCaches.NativeAudioCache.AcquireMemoryTrack | android/app/src/main/java/fm/iroh/android/NativeAudioCache.kt:127-141 | a stored track moves to the young end and gains a pin; the track returned holds the file's bytes |
| AudioCaches.NativeAudioCache.ReleaseMemoryTrack | android/app/src/main/java/fm/iroh/android/NativeAudioCache.kt:143-154 | drops one pin if there is one, then trims |
| AudioCaches.NativeAudioCache.RecordMemoryBytes | android/app/src/main/java/fm/iroh/android/NativeAudioCache.kt:169-216 | if the range delivered agrees with the file, so does everything stored and promoted; the answer and the new state are those of the abstract step, and promoted tracks are never written again |
| AudioCaches.NativeAudioCache.ResizeMemoryCache | android/app/src/main/java/fm/iroh/android/NativeAudioCache.kt:218-230 | clamps the new limit and trims |
| AudioCaches.NativeAudioCache.TrimMemoryCacheLocked | android/app/src/main/java/fm/iroh/android/NativeAudioCache.kt:232-240 | the loop is the trim whose end TrimEnds describes |
| AudioCaches.NativeAudioCache.EnsurePartialMemoryTrackLocked | android/app/src/main/java/fm/iroh/android/NativeAudioCache.kt:242-271 | returns an entry of the asked size, blank when new, or fails, as the abstract step does |
| AudioCaches.NativeAudioCache.BeginMemoryTrack | android/app/src/main/java/fm/iroh/android/NativeAudioCache.kt:273-297 | attaches a writer to a partial entry or a pin to a complete one, or fails without one |
| AudioCaches.NativeAudioCache.EndMemoryTrack | android/app/src/main/java/fm/iroh/android/NativeAudioCache.kt:299-320 | takes one writer or one pin back, then trims |
| AudioCaches.NativeAudioCache.InsertMemoryTrackLocked | android/app/src/main/java/fm/iroh/android/NativeAudioCache.kt:322-361 | inserts or replaces exactly when room can be made; the replaced track is put back otherwise |
| AudioCaches.NativeAudioCache.ReservePartialMemoryLocked | android/app/src/main/java/fm/iroh/android/NativeAudioCache.kt:363-384 | evicts until the reservation fits or everything left is in use |
| AudioCaches.NativeAudioCache.EvictOldestInactivePartialLocked | android/app/src/main/java/fm/iroh/android/NativeAudioCache.kt:386-397 | removes the eldest partial entry without writers, if any |
| AudioCaches.NativeAudioCache.EvictOldestMemoryTrackLocked | android/app/src/main/java/fm/iroh/android/NativeAudioCache.kt:399-412 | removes the eldest complete entry without pins, if any |
| DataSources.IrohDataSource.Open | android/app/src/main/java/fm/iroh/android/IrohDataSource.kt:29-84 | after a successful open exactly the file's bytes from the position on, as far as asked for, are still to be delivered, from RAM or from the stream alike; what it takes from the cache is reported exactly |
| DataSources.IrohDataSource.Read | android/app/src/main/java/fm/iroh/android/IrohDataSource.kt:86-116 | delivers the next bytes of what is left, at least one when some were asked for, never a missing chunk; end of input only when nothing is left |
| DataSources.IrohDataSource.Close | android/app/src/main/java/fm/iroh/android/IrohDataSource.kt:120-140 | gives back exactly the pin and the writer the open took |
| DataSources.IrohDataSource.Skip | android/app/src/main/java/fm/iroh/android/IrohDataSource.kt:59-79 | the stream is read up to min(position, size) and everything skipped is recorded where it belongs |
| DataSources.Play | android/app/src/main/java/fm/iroh/android/IrohDataSource.kt:29-140 | opening, reading to the end with any buffer size and closing yields the same bytes of the file on a hit and on a miss |
| DataSources.SessionBalanced | android/app/src/main/java/fm/iroh/android/IrohDataSource.kt:29-140 | a whole session keeps to the cache's protocol, so every count is conserved, and gives back exactly what it took |
| DataSources.AsksTake | android/app/src/main/java/fm/iroh/android/IrohDataSource.kt:37-53 | an open takes one pin on a hit, one writer when it starts populating, and nothing else |
| DataSources.WorldCache | android/app/src/main/java/fm/iroh/android/IrohDataSource.kt:29-140 | the cache operations reported by open, read and close are those the protocol's counts are about |
| DataSources.OpenAnswers | android/app/src/main/java/fm/iroh/android/IrohDataSource.kt:42-83 | the answers of a hit and a miss to one request agree exactly when no length is given or the file still has it |
| LyricsSchedule.EnqueueMeaning | crates/server/src/lyrics.rs:134-182 | accepted means queued or active with that metadata afterwards; refused means not queued, not being worked on, and no room, and changes nothing |
| LyricsSchedule.EnqueueLeaves | crates/server/src/lyrics.rs:139-182 | exactly which job changes: the first queued one of the track takes over new metadata and is no search any more, a new track comes last, everything else stays |
| LyricsSchedule.RunLoad | crates/server/src/lyrics.rs:134-197 | over every run of one worker queued plus active stays within MAX_QUEUE, so a fallback always finds room |
| LyricsSchedule.KeepsTurn | crates/server/src/lyrics.rs:134-197 | whatever is enqueued meanwhile, after t takes the job at index i is at index i - t |
| LyricsSchedule.TakenInTurn | crates/server/src/lyrics.rs:184-188 | the job at index i is taken by exactly the (i+1)-th later take |
| LyricsSchedule.AcceptedIsTaken | crates/server/src/lyrics.rs:134-197 | an accepted track is the one being worked on or is reached by its place's number of takes |
| LyricsSchedule.Balance | crates/server/src/lyrics.rs:134-197 | the queue's length is what was pushed less what was taken: nothing leaves but by a take |
| LyricsSchedule.FallbackSearches | crates/server/src/lyrics.rs:184-197 | a fallback is re-queued as a search for the same metadata, and is what the take after all that were queued before delivers, unless its track is requested meanwhile |
| LyricsSchedule.FinishForgets | crates/server/src/lyrics.rs:190-197 | a job that needs no fallback is not queued again |
| LyricsSchedule.SearchesAreFallbacks | crates/server/src/lyrics.rs:134-197 | over every run a queued or active search comes from a fallback with its metadata |
| LyricsSchedule.Schedule.EnqueueFor | crates/server/src/lyrics.rs:139-182 | the object's queue, active job and log flag after an enqueue |
| LyricsSchedule.Schedule.TakeJob | crates/server/src/lyrics.rs:184-188 | takes the front and remembers it as active |
| LyricsSchedule.Schedule.FinishJob | crates/server/src/lyrics.rs:190-197 | clears the active job, re-queued as a search when a fallback is asked for |
| LyricsGate.BackoffDoubles | crates/server/src/lyrics.rs:622-637 | the capped shift is min(3600, 60 * 2^(failures - 1)); the cut-off at seven changes nothing |
| LyricsGate.RestoredWaits | crates/server/src/lyrics.rs:615-620 | a restored gate opens no earlier than the persisted deadline and at most a second after it |
| LyricsGate.Gate.Completed | crates/server/src/lyrics.rs:622-637 | counts the failure or resets the count, and waits the delay from now |
| LyricsGate.ReservationCovers | crates/server/src/lyrics.rs:703-706 | the persisted reservation outlives the attempt by the gap |
| LyricsGate.StepKeeps | crates/server/src/lyrics.rs:640-814 | every step of the worker, and a crash or restart anywhere, keeps the invariant of the rate limit |
| LyricsGate.AttemptIsReserved | crates/server/src/lyrics.rs:703-726 | no attempt without a persisted reservation that covers it and the gap after it |
| LyricsGate.RateLimit | crates/server/src/lyrics.rs:607-814 | over every run with crashes and restarts: attempts are spaced by the whole seconds of the gap; after a persisted failure by max(min(3600, 60 * 2^(failures - 1)), Retry-After) seconds, and failure counts grow |
| LyricsGate.FailuresInARow | crates/server/src/lyrics.rs:622-637 | over every run with crashes and restarts a saved failure counts exactly one more than the saved outcome before it, nothing after a success, and one more for every reservation that could not be written |
| LyricsGate.SuccessEndsBackoff | crates/server/src/lyrics.rs:622-814 | after a saved success the running and every later process count no failure but reservations that could not be written since |
| LyricsGate.AnswerIsSaved | crates/server/src/lyrics.rs:727-758 | an answer that is completed and saved settles its attempt, with its failure and Retry-After or as a success |
| LyricsGate.GateOpens | crates/server/src/lyrics.rs:662-726 | as soon as the gate opens the worker can reserve and send once more; the reservation lasts the timeout, the gap and a second, in whole seconds |
| LyricsGate.StartRestores | crates/server/src/lyrics.rs:640-660 | a process that starts goes on with the persisted failure count and waits for the persisted deadline, less than a second more |
| LyricsGate.WaitsNoLonger | crates/server/src/lyrics.rs:607-758 | the gate opens and the persisted deadline lies no later than what RateLimit demands, up to the seconds lost to rounding |
| LyricsGate.LostWritesWait | crates/server/src/lyrics.rs:696-758 | when persisting fails the running process counts a failure: the back-off before it reserves again, an hour or the gap after an outcome it could not save |
| LyricsStore.Cache.GetRow | crates/server/src/lyrics.rs:225-249 | a row is found exactly under its metadata and before it expires; annotations of another version are withheld |
| LyricsStore.Cache.PutRow | crates/server/src/lyrics.rs:251-276 | stores the row with its expiry by status |
| LyricsStore.Cache.PutAnnotationsRow | crates/server/src/lyrics.rs:280-300 | writes only if metadata, status and both texts still match |
| LyricsStore.Cache.ReadThrottle | crates/server/src/lyrics.rs:302-314 | the persisted deadline and count, zero when there are none |
| LyricsStore.Cache.StoreThrottle | crates/server/src/lyrics.rs:316-327 | replaces the provider state and touches no row |
| LyricsStore.ShownIsSourced | crates/server/src/lyrics.rs:225-300 | in every interleaving of fetches, metadata changes, annotation jobs and crashes, annotations shown are of the asked version and computed from exactly the texts shown |
| LyricsStore.ShownIsFetched | crates/server/src/lyrics.rs:225-300 | in every interleaving, the status, texts and link shown came together in one fetch under the reader's metadata |
| LyricsStore.FetchedIsShown | crates/server/src/lyrics.rs:225-300 | after any run, what is fetched is shown through any jobs and other fetches until exactly its expiry, with the remaining time as retry hint, and never under other metadata; thirty days when not found, the retry time or a minute after a transient failure, without end for lyrics |
| LyricsStore.JobsLeaveFacts | crates/server/src/lyrics.rs:225-327 | leaving the annotation jobs out of any run leaves the same rows with the same fingerprint, status, texts and expiry, and the same provider state |
| LyricsStore.JobsAreInvisible | crates/server/src/lyrics.rs:225-327 | so readers see the lyrics, and the provider its state, as if no job ran |
| LyricsStore.ReservedIsRead | crates/server/src/lyrics.rs:302-327 | after any run, saved provider state reads back until it is saved anew, deadlines capped at 2^63 - 1 |
| LyricsStore.NothingReserved | crates/server/src/lyrics.rs:302-314 | before anything is reserved no deadline and no failure is read |
| LyricsStore.AnnotationsAccepted | crates/server/src/lyrics.rs:280-300 | an annotation write is accepted exactly for a row with the same metadata and texts of a track that has lyrics; it replaces what the row says and keeps its expiry, or changes nothing |
| LyricsStore.JobUpgrades | crates/server/src/lyrics.rs:513-572 | after any run, a job that reads a row is accepted in the end, through any other jobs and fetches for other tracks, and readers are then shown annotated lyrics |
| LyricsStore.StoreRevertsLink | crates/server/src/lyrics.rs:278-300 | exactly when an annotation write replaces the stored source link |
| LyricsStore.LinkReverted | crates/server/src/lyrics.rs:278-300 | a run in which a late annotation job brings an older source link back |
| LibraryMerge.MergeAdd | crates/server/src/scanner.rs:197-313 | adding a track to the right builder and merging is merging and then adding it |
| LibraryMerge.MergeIsAppend | crates/server/src/scanner.rs:503-557 | merging the builders of two adjacent lists of tracks is building their concatenation, when no ids collide |
| LibraryMerge.ChunkedIsSequential | crates/server/src/scanner.rs:560-635 | however the tracks are cut into chunks, the merged index is the sequential one: artists, albums, track order, sizes, durations, first-wins fields, genres |
| LibraryMerge.ChunkSizeIrrelevant | crates/server/src/scanner.rs:569-600 | so every chunk size gives the same index |
| LibraryAlbums.AlbumSays | crates/server/src/scanner.rs:197-313 | without colliding ids an album of the index has the date, year and MusicBrainz ids of its first track that knows them, the capped sums of durations and sizes, the largest disc number, the ids of all its tracks in order, and each genre once, as first spelled |
| LibraryAlbums.ArtistSays | crates/server/src/scanner.rs:197-262 | without colliding ids an artist lists the albums of its tracks, each once, in the order of their first tracks |
| LibraryAlbums.TrackSays | crates/server/src/scanner.rs:197-260 | the entry of a track id is the last scanned track with that id, field by field |
| LibraryAlbums.OnlyAlbums | crates/server/src/scanner.rs:281-313 | an album of the index is one that a scanned track names |
| LibraryAlbums.OnlyArtists | crates/server/src/scanner.rs:262-279 | and an artist likewise |
| LibraryAlbums.OnlyTracks | crates/server/src/scanner.rs:209-260 | and a track likewise |
| LibraryAlbums.ExtendSays | crates/server/src/scanner.rs:1004-1039 | one more track keeps what an album says of its tracks: first known values, sums, maximum and first spellings |
| LibraryIds.SlugOfWord | crates/server/src/scanner.rs:1175-1188 | a word of ASCII letters and digits is put in lower case |
| LibraryIds.SlugOfParts | crates/server/src/scanner.rs:1175-1188 | any other character between two parts becomes one dash between their slugs, and nothing where a part has none |
| LibraryIds.SlugSome | crates/server/src/scanner.rs:1175-1188 | there is a slug exactly for names with an ASCII letter or digit |
| LibraryIds.StableIds | crates/server/src/scanner.rs:1194-1206 | the id is the slug of an ASCII name that has one, and otherwise ends in the digest, after the slug or the prefix |
| LibraryIds.DigestsApart | crates/server/src/scanner.rs:1194-1206 | names whose ids end in different digests of one length never share an id |
| LibraryCollisions.CutIff | crates/server/src/scanner.rs:503-635 | for every cut of a scan, the merged index is the sequential one exactly when the cut is safe: every artist, album and track id is |
| LibraryCollisions.ArtistIff | crates/server/src/scanner.rs:503-557 | an artist comes out of the merge as out of the sequential index exactly when its chunks agree on names and albums in the stated way |
| LibraryCollisions.AlbumIff | crates/server/src/scanner.rs:503-557 | the same for an album: keys, order of tracks, and the metadata the stand-ins of re-used track ids leave |
| LibraryCollisions.TrackIff | crates/server/src/scanner.rs:503-557 | the same for a track: the first chunk's track against the last one of the scan |
| LibraryCollisions.SizeIff | crates/server/src/scanner.rs:560-635 | for the chunks of a size the index is the sequential one exactly when they are a safe cut |
| LibraryCollisions.ChunksShared | crates/server/src/scanner.rs:569-600 | the chunks are the scan in order, cut so that all but the last have max(tracks / threads, 256) tracks |
| LibraryCollisions.OneChunk | crates/server/src/scanner.rs:560-600 | a scan that fits one chunk is indexed sequentially, whatever ids collide |
| LibraryCollisions.NewNameBreaks | crates/server/src/scanner.rs:503-635 | an album artist that first occurs in a later chunk under an id given to another before breaks the index |
| LibraryCollisions.LargeScanDiffers | crates/server/src/scanner.rs:560-635 | a scan of 257 tracks that every number of threads from two on indexes differently, whatever the digest |
| LibraryCollisions.ExactCondition | crates/server/src/scanner.rs:560-635 | no cut whatsoever matters exactly when no two artists, albums or tracks share a derived id |
| LibraryCollisions.CaseCollides | crates/server/src/scanner.rs:560-600 | ASCII artists that differ in case only share an id, so one that first occurs in a later chunk of the source breaks the index |
| LibraryCollisions.ColonCollides | crates/server/src/scanner.rs:281-313 | albums whose artist and title split a colon differently share an id |
| LibraryBuilders.MergeAlbumTrackMetadata | crates/server/src/scanner.rs:1004-1039 | counts, sums and first-wins fields of an album after one more track, genres without case-insensitive repetition |
| LibraryBuilders.LibraryBuilder.ArtistIdFor | crates/server/src/scanner.rs:262-279 | the known artist, or a new entry under the derived id |
| LibraryBuilders.LibraryBuilder.AlbumIdFor | crates/server/src/scanner.rs:281-313 | the known album, or a new entry under the derived id |
| LibraryBuilders.LibraryBuilder.AddTrack | crates/server/src/scanner.rs:197-260 | one track enters its artist, its album and the table of tracks; a track without tags is refused |
| LibraryBuilders.LibraryBuilder.MergeBuilder | crates/server/src/scanner.rs:503-557 | all artists, albums and tracks of another builder enter this one; the order of the table iterations does not matter |
| LibraryBuilders.BuildIndexParallel | crates/server/src/scanner.rs:560-635 | fails exactly when a track has no tags, else the chunks' builders merged in order |
| LibraryBuilders.BuildIndex | crates/server/src/scanner.rs:560-635 | for any number of threads the index is the sequential one exactly when the source's chunks are a safe cut; so it is without colliding ids, and for a scan of one chunk |
| Calendar.YearOfEraBounds | crates/subsonic/src/routes.rs:1227-1228 | the closed form finds the year of the 400-year era a day lies in |
| Calendar.CivilDateCounts | crates/subsonic/src/routes.rs:1222-1236 | the date of every day is valid and that many days from 1970, counted year by year and month by month |
| Calendar.CivilCounts | crates/subsonic/src/routes.rs:1221-1239 | every second has valid fields that count back to it |
| Calendar.CivilInverse | crates/subsonic/src/routes.rs:1221-1239 | and every valid date-time is the one of its second |
| Calendar.DateUnique | crates/subsonic/src/routes.rs:1222-1236 | a day number belongs to one date only |
| Calendar.NextDay | crates/subsonic/src/routes.rs:1221-1239 | 86400 seconds later it is the same time on the calendar's next date |
| Calendar.YearRange | crates/subsonic/src/routes.rs:1221-1236 | the seconds of the years 0 to 9999 |
| Calendar.TextParses | crates/subsonic/src/routes.rs:1240 | the text of those years meets sections 5.6 and 5.7 and appendix C of RFC 3339 and parses back to the fields |
| Calendar.OtherYears | crates/subsonic/src/routes.rs:1240 | outside those years the text is no RFC 3339 date-time |
| Calendar.NegativeYear | crates/subsonic/src/routes.rs:1240 | a year before 0 is written with its sign and at least three digits |
| Calendar.LongYear | crates/subsonic/src/routes.rs:1240 | and one after 9999 with the digits it has |
| Calendar.TextIsRfc3339 | crates/subsonic/src/routes.rs:1221-1241 | the text of a second is an RFC 3339 date-time exactly for those years, and then stands for that second |
| Calendar.YearTenThousand | crates/subsonic/src/routes.rs:1221-1241 | the first second whose text is not one, and that text |
| Furigana.Readings | crates/server/src/furigana.rs:62-129 | offsets accumulated token by token, with tokens skipped, are those counted from the start; each kept token yields its reading |
| Furigana.Accumulate | crates/server/src/furigana.rs:117-126 | UTF-16 units before a byte offset grow by the units of the slice passed over |
| Furigana.UnitsOfSlice | crates/server/src/furigana.rs:117-118 | the units between two offsets are exactly those of the slice between them |
| Furigana.ReadingsNameSurfaces | crates/server/src/furigana.rs:81-127 | every reading names exactly its token's surface in the UTF-16 source |
| Furigana.ReadingsFollow | crates/server/src/furigana.rs:81-127 | and ends before the next one begins |
| Furigana.KeptMember | crates/server/src/furigana.rs:81-127 | every kept token yields its reading, after those of the kept tokens before it |
| Furigana.KeptIs | crates/server/src/furigana.rs:30-46 | a token is kept exactly for a surface with an ideograph or iteration mark, when it is known and its detail is kana, in code points |
| Furigana.ReadingIs | crates/server/src/furigana.rs:48-60 | the reading is the detail with katakana letters 96 code points lower |
| Furigana.UnitsDecode | crates/server/src/furigana.rs:117-118 | the UTF-16 units of a scalar value decode to it |
| Furigana.WidthBits | crates/server/src/furigana.rs:81-90 | and its bytes are the fewest of UTF-8 that hold its bits |
| Furigana.DirectMember | crates/server/src/furigana.rs:81-127 | the readings are those of the kept tokens and no others |
| Furigana.MeaningsArePrefix | crates/server/src/furigana.rs:102-116 | the readings that carry a meaning are a prefix, and their sizes stay within the budget |
| Furigana.Charge | crates/server/src/furigana.rs:102-116 | the budget counter is the sum of sizes until it is exceeded, and an entry is kept exactly while it fits |
| Furigana.HiraganaStable | crates/server/src/furigana.rs:42-60 | converted readings hold no katakana letters, keep their length, and convert to themselves |
| LyricSpans.SourceRows | packages/web/src/lib/lyrics.js:107-117 | the split with computed offsets gives the rows where they stand in the text |
| LyricSpans.RowAt | packages/web/src/lib/lyrics.js:107-117 | each row is the slice at its offset, without line feeds, and ends at one separator before the next |
| LyricSpans.RowsRebuild | packages/web/src/lib/lyrics.js:107-117 | rows and separators rebuild the text after its byte order mark |
| LyricSpans.TextRebuilt | packages/web/src/lib/lyrics.js:107-117 | so they rebuild a whole text but for a byte order mark U+FEFF at its start |
| LyricSpans.Separators | packages/web/src/lib/lyrics.js:107-117 | what stands between rows is LF or CR LF |
| LyricReadings.IndexReadings | packages/web/src/lib/lyrics.js:12-28 | exactly the valid spans, sorted by start and then input order |
| LyricReadings.IndexHolds | packages/web/src/lib/lyrics.js:12-28 | a reading is in the index exactly when it names a text inside the source and says something |
| LyricReadings.IndexOrdered | packages/web/src/lib/lyrics.js:26-27 | the index is ordered by start, and by place in the input where starts are the same |
| LyricReadings.LowerBound | packages/web/src/lib/lyrics.js:37-44 | the binary search finds the first span at or after the start |
| LyricReadings.RangeReadings | packages/web/src/lib/lyrics.js:37-51 | binary search, early stop and sort give the indexed spans inside the range, in input order |
| LyricReadings.FilterPlaces | packages/web/src/lib/lyrics.js:37-51 | the filter has exactly the spans inside the range, in their order |
| LyricReadings.LookupIsFilter | packages/web/src/lib/lyrics.js:12-51 | so the lookup is a plain filter of all valid readings, unsorted and overlapping ones too |
| LyricParts.RowParts | packages/web/src/lib/lyrics.js:63-104 | the nested loops and the trimming give the shown parts of the row, which the rows below are about |
| LyricParts.WordsAreReadings | packages/web/src/lib/lyrics.js:63-104 | every ruby part of a shown row is one valid reading wholly inside one retained range: its reading, and its source slice, trimmed only as the first or last part; for unsorted and overlapping spans too |
| LyricParts.RetainedRanges | packages/web/src/lib/lyrics.js:64-73 | the ranges between the tags |
| LyricShown.RangesAreOutside | packages/web/src/lib/lyrics.js:64-73 | the ranges follow one another and hold exactly the places outside all tags |
| LyricParts.PartsKeepText | packages/web/src/lib/lyrics.js:63-104 | the parts' text is the row without its tags, trimmed, whatever the spans |
| LyricParts.PartsAreRange | packages/web/src/lib/lyrics.js:76-91 | the parts of one range are that range |
| LyricParts.AllWordsAreUsed | packages/web/src/lib/lyrics.js:76-91 | before trimming, the ruby parts of all ranges are those of the spans used, each of them and in order |
| LyricParts.UsedFollow | packages/web/src/lib/lyrics.js:76-91 | the spans used lie wholly inside the range and do not overlap |
| LyricShown.UsedGreedily | packages/web/src/lib/lyrics.js:76-91 | of the spans of a range, in input order, each becomes a word unless it begins before the end of an earlier one that did |
| LyricShown.ReadingIsWord | packages/web/src/lib/lyrics.js:63-91 | so every valid reading inside a range is a word of it, unless it begins before the end of a word earlier in the input |
| LyricParts.DropLeadingShape | packages/web/src/lib/lyrics.js:93-97 | trimming the start drops blank parts and trims the first one left, no other |
| LyricParts.DropTrailingShape | packages/web/src/lib/lyrics.js:98-102 | trimming the end drops blank parts and trims the last one left, no other |
| LyricParts.ShownAt | packages/web/src/lib/lyrics.js:93-103 | a shown part is the part at its place before trimming, with its start or end trimmed only at the row's ends |
| LyricShown.TrimStartIs | packages/web/src/lib/lyrics.js:93-97 | trimming drops all white space at the start and nothing else |
| LyricShown.TrimEndIs | packages/web/src/lib/lyrics.js:98-102 | and at the end likewise |
| LyricExport.ExportWords | packages/web/src/lib/lyric-export.js:70-93 | the one forward cursor gives every row what a scan of all readings for that row gives |
| LyricExport.ExportLines | packages/web/src/lib/lyric-export.js:47-110 | the lines of all rows with their places, displays and words, sorted by time |
| LyricExport.LineOfRow | packages/web/src/lib/lyric-export.js:61-110 | every exported line is one its row displays, with the row's place and words; plain rows display their trimmed text at its estimated time |
| LyricShown.LineExported | packages/web/src/lib/lyric-export.js:61-110 | and every line that a row shows is exported, with the row's place and words |
| LyricShown.RowShows | packages/web/src/lib/lyric-export.js:61-107 | synced rows show what the parser finds, clear of their tags; plain rows one line of trimmed text at the row's share of the duration |
| LyricShown.NonemptyPlaces | packages/web/src/lib/lyric-export.js:67-71 | of plain lyrics exactly the rows with a character that is no white space are exported |
| LyricExport.WordsAreReadings | packages/web/src/lib/lyric-export.js:81-96 | the words of a row are exactly the valid readings inside it and clear of its tags, each with the source text it stands on |
| LyricExport.SortedByTime | packages/web/src/lib/lyric-export.js:110 | lines are sorted by time, those without one last, and lines of one time stay in source order |
| LyricExport.SortUnique | packages/web/src/lib/lyric-export.js:110 | which determines the list |
| LyricExport.WordsOfRow | packages/web/src/lib/lyric-export.js:81-93 | a reading is a word of a row exactly when it is valid, inside the row and clear of its tags |
| LyricExport.ScanWindow | packages/web/src/lib/lyric-export.js:76-80 | only readings that begin in the row matter to it |
| LyricExport.RowsAscend | packages/web/src/lib/lyric-export.js:61-65 | rows follow one another, so the cursor never has to go back |
| LyricTimes.ActiveLyricIndex | packages/web/src/lib/lyrics.js:179-189 | the last line that has begun: exactly the lines up to the index are not after the position; -1 for a position that is not finite |
| LyricTimes.EstimatedOrder | packages/web/src/lib/lyrics.js:167-176 | estimated times are sorted, start at zero and stay below the duration; of a track of unknown length no line is ever active |
| DesktopPlayer.ActiveFollows | packages/web/src-tauri/src/player.rs:94-336 | in every interleaving at most two positions are active, the second the cyclic successor of the first, and after a sync they are exactly what the player holds |
| DesktopPlayer.PlaysInOrder | packages/web/src-tauri/src/player.rs:164-336 | what a player has been given is the queue from the selected place on, in cyclic order |
| DesktopPlayer.SourceEndsMovesOn | packages/web/src-tauri/src/player.rs:94-103 | when the source that plays ends, the positions that were active go on without it |
| DesktopPlayer.StaleCompletion | packages/web/src-tauri/src/player.rs:203-206 | a download of an older generation, or of a place no longer wanted, changes nothing |
| DesktopPlayer.WantedCompletion | packages/web/src-tauri/src/player.rs:203-217 | a wanted download is appended exactly once, to the live player if there is one |
| DesktopPlayer.StartPlaysQueue | packages/web/src-tauri/src/player.rs:279-309 | a start that was not replaced plays a place of its queue exactly when the queue is still there |
| DesktopPlayer.SkipStarts | packages/web/src-tauri/src/player.rs:391-411 | in every interleaving next starts the place after the playing one and previous the one before, cyclically, or beside the first when nothing plays, with the queue as it is; nothing without a queue |
| DesktopPlayer.PrefetchIff | packages/web/src-tauri/src/player.rs:153-191 | a download is scheduled exactly when one place of a longer queue plays and none is under way, for the place that next would start |
| DesktopPlayer.FailedCompletion | packages/web/src-tauri/src/player.rs:199-217 | a wanted download that fails lets go of its claim and changes nothing else |
| DesktopPlayer.StaleStart | packages/web/src-tauri/src/player.rs:279-309 | a start that was replaced, or for which no device opens, changes nothing |
| DesktopPlayer.LoadingFollows | packages/web/src-tauri/src/player.rs:246-309 | a start under way shows as loading, a live player does not |
| DesktopPlayer.CloseIsFinal | packages/web/src-tauri/src/player.rs:105-117 | after a close nothing plays or loads, and nothing under way has any effect |
| DesktopPlayer.StopDuringStart | packages/web/src-tauri/src/player.rs:246-309 | a run in which a stop between the phases leaves a player on an empty queue |
| DesktopPlayer.DesktopAudio.SyncActive | packages/web/src-tauri/src/player.rs:94-103 | the loop keeps the youngest positions, as many as the player holds |
| DesktopPlayer.DesktopAudio.CloseAudio | packages/web/src-tauri/src/player.rs:105-117 | a new generation without player, queue or prefetch |
| DesktopPlayer.DesktopAudio.ScheduleLocked | packages/web/src-tauri/src/player.rs:164-191 | claims the place after the current one, unless one is claimed or held already |
| DesktopPlayer.DesktopAudio.CompleteLocked | packages/web/src-tauri/src/player.rs:199-217 | the locked end of a download |
| DesktopPlayer.DesktopAudio.BeginLocked | packages/web/src-tauri/src/player.rs:252-275 | a new generation with the new queue; fails for a closed client without a change, and for a place outside the queue after it |
| DesktopPlayer.DesktopAudio.FinishLocked | packages/web/src-tauri/src/player.rs:279-309 | a new player with the selected place, unless the generation has moved on or no device opens |
| DesktopPlayer.DesktopAudio.StopLocked | packages/web/src-tauri/src/player.rs:461-466 | drops player, queue and active positions but keeps the generation |
| DesktopPlayer.DesktopAudio.NeighbourLocked | packages/web/src-tauri/src/player.rs:399-411 | the cyclic neighbour of the current place; an error for an empty queue |
| Playlists.CreateAppends | crates/server/src/server.rs:445-478 | a new playlist comes last in its scope; other scopes are untouched |
| Playlists.DeleteKeepsOrder | crates/server/src/server.rs:537-547 | deleting keeps the order of the rest and leaves other scopes alone |
| Playlists.AcceptsPermutations | crates/server/src/server.rs:549-576 | the check before a reordering accepts exactly the permutations of the scope's ids |
| Playlists.ReorderLists | crates/server/src/server.rs:549-583 | a reordering succeeds exactly for those, then lists exactly that order, and otherwise changes nothing |
| PlaylistRows.NewRow | crates/server/src/server.rs:445-478 | the row of a new playlist: no comment, the time twice, and a position one above the largest of its scope, 0 for the first |
| PlaylistRows.EditedRow | crates/server/src/server.rs:481-535 | an edit changes the one row: the name and comment given, an empty comment to none, and the time |
| PlaylistRows.DeletedRow | crates/server/src/server.rs:537-547 | a deletion takes the one row out |
| PlaylistRows.ReorderedRow | crates/server/src/server.rs:573-583 | an accepted order gives every row of the scope its place in it and changes nothing else |
| PlaylistRows.LoadedRow | crates/server/src/server.rs:1047-1105 | loading notes the time in the row exactly when tracks were dropped |
| PlaylistRows.SortedInOrder | crates/server/src/server.rs:415-428 | whatever rows are stored, a scope is listed by position, and by id where positions are the same |
| PlaylistRows.LessIdIs | crates/server/src/server.rs:419 | ids are compared by the first character that differs, and a text comes before what it begins |
| Playlists.UpdateKeepsListing | crates/server/src/server.rs:481-535 | changes of name, comment and time change no listing |
| PlaylistStore.Creates | crates/server/src/server.rs:445-478 | a playlist is created exactly for a name and known tracks, with the tracks without repetition, and nothing else changes |
| PlaylistStore.Deletes | crates/server/src/server.rs:537-547 | the playlist and its tracks are gone, nothing else changes |
| PlaylistStore.Loads | crates/server/src/server.rs:1047-1105 | returns the stored tracks the library has, in order, stores exactly those, and loading again changes nothing |
| PlaylistStore.Updates | crates/server/src/server.rs:481-535 | accepted exactly for a nonempty name, known tracks and a listed playlist; given tracks replace the stored ones without repetition; no listing changes |
| PlaylistStore.Reorders | crates/server/src/server.rs:549-583 | reordering touches no tracks |
| PlaylistStore.HistoryKeeps | crates/server/src/server.rs:415-583 | after any history with fresh ids: distinct ids, distinct positions per scope, tracks without repetition at positions 0 to n - 1 |
| PlaylistStore.Database.ValidateTracks | crates/server/src/server.rs:1012-1027 | the ids without later repetitions, or an error for an unknown track |
| PlaylistRows.UniqueFirsts | crates/server/src/server.rs:1012-1027 | the ids that are stored are the given ones, each once, where it first occurs |
| PlaylistRows.SelectedByPosition | crates/server/src/server.rs:1075 | whatever rows are stored, tracks are selected in the order of their positions |
| PlaylistRows.KeptPlaces | crates/server/src/server.rs:1080-1105 | loading keeps exactly the tracks the library has, at their places |
| PlaylistStore.Database.ReplaceTracks | crates/server/src/server.rs:1029-1045 | the playlist's tracks become the given ones, numbered |
| PlaylistStore.Database.Create | crates/server/src/server.rs:445-478 | the tables after a creation |
| PlaylistStore.Database.Load | crates/server/src/server.rs:1047-1105 | the tables and the answer of a load |
| PlaylistStore.Database.Update | crates/server/src/server.rs:481-535 | the tables and the answer of an update and the load that ends it; refused for an empty name, an unknown track or playlist |
| PlaylistStore.Database.ListPlaylists | crates/server/src/server.rs:415-428 | the scope's playlists in their order, each with exactly the stored tracks the library has |
| PlaylistStore.Database.Delete | crates/server/src/server.rs:537-547 | the tables after a deletion, cascading to the tracks |
| PlaylistStore.Database.Reorder | crates/server/src/server.rs:549-583 | the tables after a reordering |
| PlaylistStore.RemoveIndexes | crates/subsonic/src/routes.rs:213-222 | removing from the highest index down removes exactly the listed places of the list as it was |
| PlaylistStore.EditTracks | crates/subsonic/src/routes.rs:212-232 | an edit removes the listed places, however ordered and repeated, and appends what is new |
| PlaylistStore.WithNewFacts | crates/subsonic/src/routes.rs:223-232 | what is kept comes first, additions join once each, and nothing is listed twice |
| PlaylistRows.WithoutPlaces | crates/subsonic/src/routes.rs:213-222 | without the listed indexes a track list has exactly what stands at the others |
| PlaylistRows.WithNewFirsts | crates/subsonic/src/routes.rs:223-232 | after additions it has what was there and then what is new, each once |
| LruCaches.ExcessIsShortest | crates/server/src/server.rs:93-100 | eviction removes exactly the shortest oldest prefix that makes room |
| LruCaches.HitGood | packages/web/src-tauri/src/track.rs:68-74 | a hit keeps entries, bytes and the bound and moves the entry to the young end |
| LruCaches.HitAnswers | crates/server/src/server.rs:63-79 | a read answers exactly what is stored under the key, and of the version asked for; it becomes the youngest, another version goes, a miss changes nothing |
| LruCaches.WithoutPlaces | packages/client/src/index.js:110-137 | the entries of other keys keep their order |
| LruCaches.StoreGood | packages/web/src-tauri/src/track.rs:92-117 | accepted exactly for items that are not empty and fit; the item becomes the youngest and the shortest sufficient prefix goes |
| LruCaches.StoreThenEvictGood | crates/server/src/server.rs:81-101 | storing first keeps the bound too, but an item larger than the cache empties it |
| LruCaches.StoreThenEvictOrder | crates/server/src/server.rs:93-100 | it evicts the shortest prefix of the other entries and the new one |
| LruCaches.ShrinkGood | packages/web/src-tauri/src/track.rs:119-129 | a new maximum evicts the shortest prefix that fits it |
| LruCaches.RunGood | packages/client/src/index.js:100-155 | after every operation of every run keys are distinct and the bytes within the limit |
| LruCaches.IdRoundTrip | packages/web/src-tauri/src/track.rs:64-82 | names read back from a key are those stored exactly when the remote's name has no NUL |
| LruCaches.KeysApart | packages/web/src-tauri/src/track.rs:64-66 | tracks with such remotes never share an entry |
| LruCaches.KeysCollide | packages/web/src-tauri/src/track.rs:64-66 | tracks whose remote and id split a NUL differently do |
| LruCaches.CoverThumbnailCache.Get | crates/server/src/server.rs:63-79 | a thumbnail is answered only for its source version, another version is dropped; table, order and counter stay one list |
| LruCaches.CoverThumbnailCache.Insert | crates/server/src/server.rs:81-101 | store, then evict the oldest until the bytes fit |
| LruCaches.CoverThumbnailCache.Remove | crates/server/src/server.rs:103-108 | the entry leaves table, order and counter |
| LruCaches.CoverThumbnailCache.Touch | crates/server/src/server.rs:110-113 | the entry becomes the youngest |
| LruCaches.MemoryTrackCache.Get | packages/web/src-tauri/src/track.rs:68-74 | refines the hit of the abstract list |
| LruCaches.MemoryTrackCache.EvictOldest | packages/web/src-tauri/src/track.rs:84-90 | removes the oldest entry and names it |
| LruCaches.MemoryTrackCache.Insert | packages/web/src-tauri/src/track.rs:92-117 | refines the insertion and reports exactly the evicted tracks, oldest first |
| LruCaches.MemoryTrackCache.Resize | packages/web/src-tauri/src/track.rs:119-129 | refines the new maximum and reports exactly the evicted tracks |
| LruCaches.TrackMemoryCache.Get | packages/client/src/index.js:110-116 | deleting and setting again in an ordered map refines the hit |
| LruCaches.TrackMemoryCache.Set | packages/client/src/index.js:122-137 | refines the insertion |
| LruCaches.TrackMemoryCache.EvictFor | packages/client/src/index.js:127-133 | the eviction loop of set and resize removes exactly the counted prefix |
| LruCaches.TrackMemoryCache.Clear | packages/client/src/index.js:139-142 | empties the cache |
| LruCaches.TrackMemoryCache.Resize | packages/client/src/index.js:145-154 | refines the new maximum |
| CoverFetches.StepKeeps | packages/client/src/index.js:629-744 | every step keeps each promise in exactly one place, answered promises as they are, counters equal to what they count, and no runnable fetch asleep |
| CoverFetches.RunKeeps | packages/client/src/index.js:629-995 | the same over every run: no promise is lost or answered twice |
| CoverFetches.AllAnswered | packages/client/src/index.js:629-995 | once everything under way has ended, exactly the promises made in the run are answered |
| CoverFetches.StartsWithinLimit | packages/client/src/index.js:638-662 | whenever a fetch starts, at a refill too, the client may fetch, the fetch was waiting or just asked for, and no more run than one during audio and three otherwise |
| CoverFollows.StepFills | packages/client/src/index.js:638-662 | after a place is given back, audio ends, a release is followed up, the client goes online or a fetch is asked for, no fetch that may run waits while a place is free |
| CoverFollows.StartsInOrder | packages/client/src/index.js:638-651 | no waiting fetch overtakes one that waits before it |
| CoverFollows.StepAnswers | packages/client/src/index.js:629-662 | exactly when a promise is answered: by success, by refusal when closed or offline, by a failure that is not retried, by the closing |
| CoverFollows.OutcomesFollow | packages/client/src/index.js:629-662 | over every run an answered promise was resolved exactly when its fetch succeeded |
| CoverFollows.CountersFollow | packages/client/src/index.js:629-995 | over every run the flags and counters are what happened: fetches pause while an audio request is under way, sources count from opening to first release, each first release schedules one drain |
| CoverFetches.StepSorted | packages/client/src/index.js:653-656 | a step keeps the waiting fetches in order exactly when it retries nothing, or a fetch that was asked for before all of them |
| CoverFetches.OrderKeptIff | packages/client/src/index.js:629-744 | over every run the waiting fetches stay in the order asked for exactly when every retry does |
| CoverFetches.RetryReverses | packages/client/src/index.js:653-656 | a run in which two fetches under way fail under one pause and come back reversed |
| CoverFetches.MusicClient.DrainCoverFetchQueue | packages/client/src/index.js:638-662 | the loop starts the waiting fetches from the front, as many as places are free |
| CoverFetches.MusicClient.EnqueueCoverFetch | packages/client/src/index.js:629-636 | refused when closed or offline, else queued and drained |
| CoverFetches.MusicClient.FetchSucceeded | packages/client/src/index.js:652-653 | the promise is resolved and the place is given back only when the fetch ends |
| CoverFetches.MusicClient.FetchFailed | packages/client/src/index.js:653-656 | back to the front while audio pauses an open client, else rejected |
| CoverFetches.MusicClient.FetchEnded | packages/client/src/index.js:657-660 | the place is given back and the queue drains |
| CoverFetches.MusicClient.BeginAudio | packages/client/src/index.js:681-683 | an audio request pauses the queue |
| CoverFetches.MusicClient.OpenAudio | packages/client/src/index.js:697-698 | an opened source counts until its release |
| CoverFetches.MusicClient.SetOfflineOnly | packages/client/src/index.js:406-408 | going online drains the queue |
| CoverFetches.MusicClient.ReleaseAudio | packages/client/src/index.js:699-704 | only the first release of a source counts |
| CoverFetches.MusicClient.EndAudio | packages/client/src/index.js:737-743 | the last open audio request ends the pause and drains |
| CoverFetches.MusicClient.CloseClient | packages/client/src/index.js:982-985 | every waiting promise is rejected |
| ChunkedBridge.RequestFits | packages/client/src/native.js:228-245 | a request fits the receiver's 1024 chunks exactly up to 24 MiB characters, which is its other limit |
| ChunkLimits.PiecesAre | packages/client/src/native.js:228-245 | each chunk is its slice of 24 Ki characters of a request, 64 Ki of a reply, with its number and their count |
| ChunkedBridge.AcceptSeen | packages/client/src/native.js:128-162 | a receiver knows of a transfer exactly which numbers it has seen; the completing chunk yields the message |
| ChunkedBridge.DeliveredRounds | packages/client/src/native.js:128-162 | whatever else arrives in between, a transfer yields its own message once per complete round of its chunks |
| ChunkedBridge.RoundsOf | packages/client/src/native.js:150-155 | no round completes while a chunk is missing, and exactly one when the last arrival fills the last gap |
| ChunkedBridge.RoundTrip | packages/client/src/native.js:128-162 | any arrival order, interleaving and repetition before completion reassembles exactly the message that was split, once |
| ChunkedBridge.RequestTooLong | android/app/src/main/java/fm/iroh/android/MainActivity.kt:336-340 | a longer request is never handed on, whatever arrives |
| ChunkedBridge.RequestReaches | android/app/src/main/java/fm/iroh/android/MainActivity.kt:331-361 | a chunked request whose chunks all arrive reaches the app exactly when it has at most 24 MiB characters |
| ChunkLimits.NeverTooLong | android/app/src/main/java/fm/iroh/android/MainActivity.kt:331-361 | whatever chunks arrive, the app is never handed a message of more than 24 MiB characters |
| ChunkLimits.MalformedIgnored | android/app/src/main/java/fm/iroh/android/MainActivity.kt:331-341 | a chunk without a name, of too many, or with a number outside changes nothing |
| ChunkedBridge.ReplyReaches | packages/client/src/native.js:128-162 | replies and events of any length reach the web player |
| ChunkedBridge.PostRequest | packages/client/src/native.js:221-247 | short requests, and all to an app without chunk support, go whole; others as their numbered slices |
| ChunkedBridge.PostReply | android/app/src/main/java/fm/iroh/android/MainActivity.kt:660-686 | replies above 64 KiB go as their numbered slices |
| ChunkedBridge.IncomingTransfer.Put | android/app/src/main/java/fm/iroh/android/MainActivity.kt:349-351 | one part is filled in place and counted |
| ChunkedBridge.IncomingTransfer.Joined | android/app/src/main/java/fm/iroh/android/MainActivity.kt:358 | the parts in order |
| ChunkedBridge.Receiver.ReceiveChunk | android/app/src/main/java/fm/iroh/android/MainActivity.kt:331-361 | the table of transfers and the answer after one chunk, limits and refusals included; under the other rules it is the web player's receiver |

## Left out

RAM cache and data source
- MemoryTracks.MemoryTrack: the chunks are sequences in a map that the methods update, not arrays of their own, so aliasing of chunk buffers is not modelled.
- AudioCaches.NativeAudioCache: inserting a whole track from outside (rememberMemoryTrack) is an operation of the accounting runs only; the object does not have it.
- AudioCaches.NativeAudioCache.RecordMemoryBytes: for a negative position the code stores the buffer's first byte at byte 0; the agreement with the file is required of the bytes where they land. No caller passes one.
- The key text of a remote and a track is one value here; two pairs with the same text share it. Listeners and logs are left out.
- The file a stream delivers is fixed per key and size; a server that changes a file without changing its size is not modelled.
- The disk cache, downloads, Media3 and the transport are not part of this model; a stream delivers prefixes of a file, ends or fails.

Lyrics
- LyricsGate.RateLimit: an attempt is over within 10 seconds of the clock reading of its reservation, the clock does not go back, and deadlines stay below 2^63.
- The worker is its sequence of steps, not a loop over channels; HTTP, record matching and search selection are left out, as they decide only which answer arrives.
- The engine of annotations, fingerprints and tokenization are parameters; the two tokens' details used are parameters of a token.
- Furigana.ReadingsNameSurfaces: for sources below 2^32 UTF-16 units, beyond which the casts wrap; the same for ReadingsFollow.
- LyricExport.ExportLines: what the parser of timed lyrics finds in a row, the text's offset line included, and the row's tags are parameters; the constant labels of a line and the archive around the lines are left out.
- Tag regular expressions, whitespace tables and time parsing of LRC lines are parameters or left out; offsets of spans are integers. Times and positions are reals, so the rounding of a double is not modelled.

Library and playlists
- Track fields that are only copied (numbers, formats, embedded covers, MusicBrainz ids) are one value; cover resolution, directory walks and the tag cache are left out.
- The digest of an id and the year of a date are parameters. The threads that index chunks share nothing, so chunks are indexed one after the other.
- The error of missing tags does not say which path it was.
- SQLite is tables of rows with the statements as functions; transactions are single steps. The answers' names, comments and times are not modelled.
- PlaylistStore.RemoveIndexes: the indexes come sorted and without repetition, as EditTracks passes them.

Players, caches and messages
- Volume, seeking, pausing, fading and transfer reports of the desktop player are left out; generations are unbounded. Next and previous begin a start in one step: a start with any queue is a step of its own, which covers what may come in between.
- LruCaches.CoverThumbnailCache: the version of a cover's source is one value.
- CoverFetches: only promises, counters and the queue are modelled; covers, caches and track downloads are left out, and so is the retry's own network behaviour.
- ChunkedBridge: the timers that drop incomplete transfers are left out, and a chunk that arrives after its message was complete opens a new transfer, as in the code. JSON around the chunks, the table of pending requests and the window of queued tracks are left out. String lengths do not overflow.
- XML and JSON rendering, request dispatch, command lines, user interface state and the service worker are left out: they would only add easy members.
