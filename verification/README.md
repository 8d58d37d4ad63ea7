# Verified models of the SoundCloud desktop client and its services

This Dafny project models the stateful parts of the client and its three services and
proves what they can be relied on for:

- the desktop player's queue with shuffle, and the endless-mix queue builder;
- the backend's chunked list cache and its tagged response cache;
- the storage service's upload path: byte quota, per-filename locks, batching
  dispatcher, batch runner, retrying writer and the local "keep the longer track" commit;
- the Yandex Music playlist import and its single-flight sync;
- the session recovery machine;
- the ranking of a track's transcodings.

Code that changes state step by step is a class or a method with loops, proved equal to a
function on values; the properties are lemmas about those functions. Concurrent code is a
state machine whose events are the atomic steps between two awaits, and its properties are
about every event sequence. Random draws, clock readings, fetched chunks, probe results,
file-system answers and writer outcomes are parameters, so every statement holds for all of
them.

Where the code does less than one might expect, the model follows the code and a lemma says
exactly when the expectation holds:

- the player's index and track agree after an action exactly when the action is "safe"
  (`StepCoherentIffSafe`, `RunCoherentIffSafe`); `play` without a list while shuffling,
  `clearQueue` with a track playing, and removing the current row are the usual unsafe ones;
- turning shuffle off gives the original order back, with the edits made meanwhile, when a
  track is current by then; otherwise the shuffled queue stays (`RunThenUnshuffle`,
  `UnshuffleRestores`, `OrderReturnsIff`, `UnshuffleNeedsCurrent`);
- a move with no row at its `from` puts a hole into the queue (`MoveMakesHoleIff`);
- tracks added without shuffling are heard after everything queued before them
  (`OldBeforeAdded`), and while shuffling each stands where its draw puts it
  (`AddedWhereDrawn`); every order of what is shuffled comes from exactly one vector of draws
  (`ToggledExactly`, `StartedExactly`);
- the eight-chunk cap makes a page fall short, and items then appear on no page
  (`ReadAll`, `CapCanSkipItems`);
- the list cache's lock is exclusive per lock object; per key it is exclusive exactly as long
  as no request looks the lock up between another's lookup and insert and no lock in use is
  evicted (`RunSharesIff`, `OrderlyRunsExclude`), and any such event can be continued to two
  requests of one key past the lock (`DisorderAdmitsTwo`, `TwoFetchAtOnce`);
- a write under a cache tag can shorten the tag index's life: a run keeps every live entry
  covered exactly when no write does so to a longer-lived entry (`RunCoveredIff`), and every
  write that does leaves such an entry readable after a clear (`BadWriteUncovers`); a tag with
  surrounding white space is never cleared by itself (`OwnKeyReachedIff`), and two sessions
  share an index exactly when their ids are equal or one continues the other after a colon
  (`SessionsShareIff`);
- the quota counter is exact as long as no add overflows it (`StepKeepsQuotaIff`,
  `WrapBreaksQuota`);
- the source files on disk take no more than the live reservations hold as long as no upload
  leaks a file by a second file field or a return that does not remove it; once every upload
  is over, files that nobody holds remain exactly if one did (`SourcesWithinHoldings`,
  `CleanRunsFit`, `RestLeavesFilesIff`);
- replacing the stored file can lose both versions in one order of failures
  (`FailureKeepsOldIff`), and after a failed commit that had moved the upload every retry
  fails (`FailureKeepsUploadIff`, `RetryWithoutUploadFails`), so the first attempt that moves
  the upload decides the whole writer job (`RunWriterJob`);
- every reply says what the probe, ffmpeg and the writer decided about its upload
  (`ReplyTells`);
- in any run a job's reply differs from the one it would get alone exactly when ffmpeg took
  the accepted jobs of its batch but refuses it alone (`ReplyOfBatch`,
  `BatchingIsInvisibleIff`);
- the import's final sync request returns with its sync complete exactly when no sync was in
  flight at the call (`CallWaitsIff`, `FinalRequestMayReturnEarly`); it is never lost
  (`RestMeansServed`);
- a success seen while a renewal is shown calls the renewal off, and nothing else keeps its
  failure from opening the modal (`FailureShownIff`); when a silent renewal starts is exact as
  well (`SilentStartIff`);
- re-authenticating does not cancel a renewal under way (`ReauthDoesNotCancel`).

## Layout

| files | about |
|---|---|
| `Lists`, `Arithmetic` | shared vocabulary and division facts |
| `FisherYates` | the in-place shuffle |
| `PlayerModel`, `PlayerCoherence`, `PlayerShuffle`, `PlayerQueue`, `PlayerStore` | the player as values, its invariant, shuffling as a refinement, what is where row by row, the store object |
| `VibeQueue`, `VibeOrder` | the endless mix, and its order place by place |
| `CacheKeys` | the keys and the trimming both caches share |
| `ListCache`, `ListCacheRuns`, `ListCachePages`, `ListCacheLocks`, `ListCacheClient` | the list cache alone, interleaved, its answers row by row, its locks, and as a client reads it |
| `TaggedCache`, `CacheReads` | the response cache and its tag indexes; what its readers get |
| `TmpQuota`, `FileLocks`, `Dispatcher`, `Pipeline`, `PipelineReplies`, `Writer`, `LocalStore`, `WriterOnDisk` | the upload path |
| `UploadSpace` | quota and pipeline together: disk use against holdings |
| `Playlists`, `ImportSync`, `ImportOrder` | titles, chunks and keys; the import sync; what the playlists show |
| `AuthRecovery`, `RecoveryRuns` | session recovery, and told by its events |
| `Transcodings` | stream ranking |

`dafny verify dfyconfig.toml` checks everything.

## Model

| member | source | states |
|---|---|---|
| FisherYates.ShuffleArray | desktop/src/stores/player.ts:119-124 | the in-place loop leaves the array in the order `Shuffled` gives for its draws |
| FisherYates.ShuffledCopy | desktop/src/lib/vibe-playlist.ts:36-43 | the same for the loop on a copy |
| FisherYates.ShuffledIsPermutation | desktop/src/stores/player.ts:119-124 | a shuffle keeps every element as often as it was there |
| FisherYates.ShuffledInjective | desktop/src/stores/player.ts:119-124 | on distinct elements, different draws give different orders |
| FisherYates.ShuffledSurjective | desktop/src/stores/player.ts:119-124 | every rearrangement is reached, by the draws the lemma returns |
| FisherYates.ShuffledNatural | desktop/src/stores/player.ts:119-124 | the shuffle looks only at positions: relabelling commutes with it |
| FisherYates.AllDrawsCount | desktop/src/stores/player.ts:120-121 | there are exactly n! vectors of draws j in 0..i |
| FisherYates.ShuffleIsExact | desktop/src/stores/player.ts:119-124 | of the n! draw vectors exactly one reaches each order of n distinct elements, so uniform draws give a uniform shuffle |
| PlayerStore.Store.FindIndex | desktop/src/stores/player.ts:194 | the loop finds the first track with the urn, or -1 |
| PlayerStore.Store.Play | desktop/src/stores/player.ts:191-219 | play with a list: the whole new state, shuffled and vibe cases included |
| PlayerStore.Store.PlayAppended | desktop/src/stores/player.ts:220-229 | play without a list appends to the queue only |
| PlayerStore.Store.PlayFromQueue | desktop/src/stores/player.ts:232-240 | the row becomes current; an out-of-range index changes nothing |
| PlayerStore.Store.Next | desktop/src/stores/player.ts:250-269 | next: advance, wrap on repeat-all, or stop |
| PlayerStore.Store.Prev | desktop/src/stores/player.ts:271-279 | prev: one back, not below 0 |
| PlayerStore.Store.SetQueue | desktop/src/stores/player.ts:296-314 | the replaced queue around the current track |
| PlayerStore.Store.AddToQueue | desktop/src/stores/player.ts:316-335 | the splice loop equals inserting each track in turn at its drawn place; the original order gets them at its end |
| PlayerStore.Store.AddToQueueNext | desktop/src/stores/player.ts:337-346 | the tracks go right behind the current one |
| PlayerStore.Store.RemoveFromQueue | desktop/src/stores/player.ts:348-366 | the row goes, the index follows, and the original order loses its first track with that urn |
| PlayerStore.Store.MoveInQueue | desktop/src/stores/player.ts:368-378 | the row moves as the two splices put it, positions outside the rows included, and the index follows the given positions |
| PlayerStore.Store.ClearQueue | desktop/src/stores/player.ts:380 | an empty queue, index -1, the current track untouched |
| PlayerStore.Store.ToggleShuffle | desktop/src/stores/player.ts:382-409 | shuffle on shuffles what is after the current track and keeps the order; off restores it around the current track |
| PlayerStore.Store.ReplaceTrackMetadata | desktop/src/stores/player.ts:419-430 | new metadata is merged into every copy of the track |
| PlayerCoherence.StepConservesTracks | desktop/src/stores/player.ts:220-430 | no action but those installing another queue makes or loses a track: bag after plus taken equals bag before plus brought |
| PlayerCoherence.PlayCoherent | desktop/src/stores/player.ts:191-219 | playing a list makes the player coherent if and only if the list holds the track, and then queues exactly the list's tracks, in their order unless shuffling |
| PlayerCoherence.PlayAppendedCoherent | desktop/src/stores/player.ts:220-229 | playing without a list keeps coherence if and only if no original order is kept |
| PlayerCoherence.SetQueueCoherent | desktop/src/stores/player.ts:296-314 | replacing the queue keeps coherence if and only if nothing is current or the new queue holds it |
| PlayerCoherence.SetQueueBag | desktop/src/stores/player.ts:296-314 | a replaced queue plays exactly the given tracks, in their order unless shuffling |
| PlayerCoherence.RemovalCoherent | desktop/src/stores/player.ts:348-366 | removal keeps coherence if and only if it hits another row, or a track with the same urn takes the current row's place |
| PlayerCoherence.AddToQueueCoherent | desktop/src/stores/player.ts:316-335 | adding keeps coherence whatever places are drawn |
| PlayerCoherence.MoveCoherent | desktop/src/stores/player.ts:368-378 | a move keeps coherence if and only if it is between rows, or the row that comes to stand at the index has the current urn |
| PlayerCoherence.MoveMakesHoleIff | desktop/src/stores/player.ts:368-378 | whatever the positions, the two splices leave a hole in the queue if and only if there is no row at `from`; otherwise they rearrange its rows |
| PlayerCoherence.ToggleShuffleCoherent | desktop/src/stores/player.ts:382-409 | toggling shuffle keeps coherence, either way |
| PlayerCoherence.StepCoherentIffSafe | desktop/src/stores/player.ts:191-430 | for every action, a coherent player stays coherent if and only if the action is safe, a condition checked beforehand |
| PlayerCoherence.RunCoherentIffSafe | desktop/src/stores/player.ts:191-430 | over any run from the initial player, index, current track and both orders agree throughout if and only if every action was safe |
| PlayerCoherence.ScatteredKeepsPlayed | desktop/src/stores/player.ts:318-326 | tracks added while shuffling land after the current one; everything up to it stays in place |
| PlayerCoherence.NextCycles | desktop/src/stores/player.ts:250-269 | on repeat-all, k presses of next land k rows on, modulo the queue's length, and play that row |
| PlayerCoherence.NextStopsAtEnd | desktop/src/stores/player.ts:256-261 | otherwise next stops on the last row and pauses |
| PlayerCoherence.PrevUndoesNext | desktop/src/stores/player.ts:250-279 | prev after an unwrapped next is back on the row it left |
| PlayerCoherence.ChosenStaysCurrent | desktop/src/stores/player.ts:191-430 | over any safe run a chosen track stays current, with the index on it, through all adding, moving, removing, replacing and shuffling until another is picked |
| PlayerCoherence.MoveBackRestores | desktop/src/stores/player.ts:368-378 | moving a row there and back restores the whole state; the move puts that row there and keeps the others in order |
| PlayerCoherence.AddNextPlaysNext | desktop/src/stores/player.ts:337-346 | the tracks stand in order right behind the current one; the rows before and after are unchanged |
| PlayerCoherence.MetadataReaches | desktop/src/stores/player.ts:419-430 | in the queue, the kept order and the current track alike, a copy of the track shows each field the update names and keeps the others; other tracks are unchanged |
| PlayerQueue.AddedAtEnd | desktop/src/stores/player.ts:331-334 | without shuffling, or with nothing selected, the old rows stay where they are and the added tracks follow in their order |
| PlayerQueue.AddedNext | desktop/src/stores/player.ts:337-346 | the rows up to the index stay, the tracks follow in their order, then the rows that stood behind |
| PlayerQueue.AddedWhereDrawn | desktop/src/stores/player.ts:318-326 | while shuffling every added track stands at the position drawn for it, moved on by one for each later track put in at or before it; the old rows likewise |
| PlayerQueue.PositionsAreDrawn | desktop/src/stores/player.ts:322-323 | the positions the model allows are exactly those some random number in [0, 1) gives in the source |
| PlayerQueue.OldBeforeAdded | desktop/src/stores/player.ts:250-335 | over a run: after tracks are added without shuffling, presses of next play every old row behind the current one and only then the added tracks, in order |
| PlayerQueue.AddedNextBeforeOld | desktop/src/stores/player.ts:250-346 | over a run: tracks put next are heard first, in order, and then the rows that stood behind the current one |
| PlayerQueue.ToggledExactly | desktop/src/stores/player.ts:384-393 | turning shuffle on keeps the rows up to the current one and brings those behind it into any given order for exactly one vector of draws |
| PlayerQueue.StartedExactly | desktop/src/stores/player.ts:198-209 | a list started while shuffling plays the chosen track first and the others in any given order for exactly one vector of draws |
| PlayerQueue.ReplacedExactly | desktop/src/stores/player.ts:299-308 | a queue replaced while shuffling puts the current track first and the others in any given order for exactly one vector of draws |
| PlayerQueue.RemovedRow | desktop/src/stores/player.ts:350-351 | the other rows keep their order; an index with no row removes nothing |
| PlayerQueue.MovedAsCounted | desktop/src/stores/player.ts:370-372 | negative positions of a move count from the end, of the queue for the row and of the rest for its place, and those too far are clipped |
| PlayerQueue.NextsPlayOn | desktop/src/stores/player.ts:250-269 | over a run: presses of next play the rows behind the index one after another, from the first when nothing is selected |
| PlayerQueue.PrevsGoBack | desktop/src/stores/player.ts:271-279 | over a run: presses of prev go back row by row and stay on the first |
| PlayerQueue.ClearedStartsOver | desktop/src/stores/player.ts:250-380 | over a run: after clearing, the first track added is the next one heard |
| PlayerQueue.EditsLeavePlayback | desktop/src/stores/player.ts:236-430 | queue edits change neither what is current nor whether it plays; picking changes no row |
| PlayerQueue.AccessShown | desktop/src/stores/player.ts:416-417 | the access mark shows on the current track and nothing else changes |
| PlayerShuffle.RunThenUnshuffle | desktop/src/stores/player.ts:250-409 | in any shuffled player, after any safe listening and editing, shuffle off with a track current by then yields the original order less the removed plus the added tracks in call order, around that track; with none current the listened queue stays; a track current at the start means one current at the end |
| PlayerShuffle.UnshuffleRestores | desktop/src/stores/player.ts:250-409 | shuffle on in any coherent player, any such run, shuffle off: the queue from before with just the edits if a track is current by then, else the queue as listened to |
| PlayerShuffle.ShuffledStartRestores | desktop/src/stores/player.ts:198-209 | a list started while shuffling, from any state, comes back in its own order, edits applied; a track is always current by then |
| PlayerShuffle.ReplacedQueueRestores | desktop/src/stores/player.ts:296-308 | a queue installed by a safe replacement while shuffling comes back in its own order, edits applied, if a track is current by then, else the queue stays |
| PlayerShuffle.ShuffleKeepsPlayed | desktop/src/stores/player.ts:384-393 | shuffling leaves the rows up to the current one where they are |
| PlayerShuffle.TwiceToggled | desktop/src/stores/player.ts:382-409 | shuffle on and off gives the old order, or with nothing current the shuffled one |
| PlayerShuffle.OrderReturnsIff | desktop/src/stores/player.ts:394-408 | the old order returns for all draws if and only if a track is current or there is at most one track |
| PlayerShuffle.UnshuffleNeedsCurrent | desktop/src/stores/player.ts:405-407 | a concrete pair that stays swapped because nothing is current |
| VibeQueue.Deal | desktop/src/lib/vibe-playlist.ts:58-66 | the two nested loops terminate and push exactly the round-robin deal |
| VibeQueue.DedupeTracks | desktop/src/lib/vibe-playlist.ts:45-52 | the seen-set filter keeps the first track of every urn not seen before |
| VibeQueue.BuildVibeQueue | desktop/src/lib/vibe-playlist.ts:54-71 | the whole build equals shuffled buckets, dealt, deduplicated, head first |
| VibeQueue.DealtIsPermutation | desktop/src/lib/vibe-playlist.ts:62-68 | the deal holds exactly the buckets' tracks, as often as they occur |
| VibeQueue.MixIsPermutation | desktop/src/lib/vibe-playlist.ts:56-68 | the queue before deduplication is a permutation of all bucket tracks, shuffles and dropped empty buckets included |
| VibeQueue.MixIsFair | desktop/src/lib/vibe-playlist.ts:62-68 | at every prefix no bucket is two ahead of another that still has tracks |
| VibeQueue.DedupedUrns | desktop/src/lib/vibe-playlist.ts:45-52 | deduplication leaves every urn exactly once |
| VibeQueue.DedupedKeepsFirst | desktop/src/lib/vibe-playlist.ts:45-52 | of tracks sharing an urn the first one stays |
| VibeQueue.BuiltCovers | desktop/src/lib/vibe-playlist.ts:54-73 | the result repeats no urn, covers exactly the bucket urns and the head's, and starts with the head |
| VibeOrder.DealtAt | desktop/src/lib/vibe-playlist.ts:62-68 | track r of bucket b is dealt in round r, in the buckets' order: its place is the number of tracks dealt before, r + 1 from buckets before b and r from the others as far as they reach |
| VibeOrder.DedupedInOrder | desktop/src/lib/vibe-playlist.ts:45-52 | deduplication leaves the first track of every urn, in the order in which those first tracks stood |
| VibeOrder.BuiltInOrder | desktop/src/lib/vibe-playlist.ts:54-73 | behind the head the other tracks stand in the order of the deal |
| VibeOrder.ChosenCovers | desktop/src/lib/vibe-playlist.ts:55-55 | without buckets the mix is made of the one playlist's tracks |
| VibeOrder.EveryMixDrawn | desktop/src/lib/vibe-playlist.ts:56-58 | any order of non-empty buckets and any orders of their tracks can be drawn |
| ListCache.Service.GetPage | backend/src/cache/list_cache_service.rs:227-267 | one request under any faults: a failing fetch ends it exactly when the chunks wanted reach that fetch, with nothing stored; otherwise the filled-up page, the cursors asked and the state stored |
| ListCache.Service.GetPageCalmly | backend/src/cache/list_cache_service.rs:227-267 | without faults the reply and the store show the same filled-up state |
| ListCache.Service.InvalidateByCacheKeys | backend/src/cache/list_cache_service.rs:192-225 | from the keys as given: the loop trims them and drops blanks and repeats, and exactly the invalidated keys leave the store |
| ListCache.InvalidatedIff | backend/src/cache/list_cache_service.rs:79-84 | the shared list of a key is invalidated if and only if the key is a trimmed spelling of one asked for; the session's own list if and only if, besides, a session is given |
| ListCache.FillIsAfter | backend/src/cache/list_cache_service.rs:252-260 | from k known chunks the loop ends after the first chunk that satisfies the request, exhausts the list or uses up the cap |
| ListCache.ShortExactlyWhenCapBinds | backend/src/cache/list_cache_service.rs:252-260 | a request falls short if and only if eight more chunks neither fill it nor end the list |
| ListCache.AfterServes | backend/src/cache/list_cache_service.rs:253-260 | after k chunks: their concatenation, the next cursor, and exhausted only at the end |
| ListCache.PrefixServes | backend/src/cache/list_cache_service.rs:252-264 | every state the cache may hold is the first k chunks with the matching cursor and flag |
| ListCache.PageIsTrue | backend/src/cache/list_cache_service.rs:270-286 | a page of any cached prefix is the list's own page cut at the prefix; "no more" if and only if the list is known to end by this page |
| ListCacheRuns.StepKeepsInv | backend/src/cache/list_cache_service.rs:86-145 | every load, fetch, save, fault, eviction and invalidation keeps all states prefixes, whoever holds which lock |
| ListCacheRuns.StoredIsUpstreamPrefix | backend/src/cache/list_cache_service.rs:126-145 | at every point of every interleaving the stored state is the first k chunks with the right cursor and flag |
| ListCacheRuns.AnswersAreTrue | backend/src/cache/list_cache_service.rs:227-286 | every answer in every interleaving is the true page, cut short only after eight fetches; "no more" only at the list's end |
| ListCachePages.PageRows | backend/src/cache/list_cache_service.rs:270-286 | row i of a page is item page * limit + i, and a page has as many rows as asked for or left |
| ListCachePages.AnswerRows | backend/src/cache/list_cache_service.rs:227-286 | at every point of every run row i of an answer is item page * limit + i of the upstream list, and no row is missing unless eight chunks were fetched |
| ListCachePages.SavedIsServed | backend/src/cache/list_cache_service.rs:227-267 | over a run: a saved list answers later requests it covers at their first load with nothing fetched, until it is dropped or saved over |
| ListCachePages.SessionsShareListsIff | backend/src/cache/list_cache_service.rs:79-84 | some own lists of two sessions share a key if and only if the session texts are equal or one starts with the other followed by a colon |
| ListCacheLocks.RunHoldsOnce | backend/src/cache/list_cache_service.rs:247-248 | no lock object is ever held by two requests |
| ListCacheLocks.StepSharesIff | backend/src/cache/list_cache_service.rs:86-93 | an event keeps the requests of every key on the table's one lock if and only if it is orderly: no lookup while another request of the key is about to insert, no eviction of a lock in use |
| ListCacheLocks.RunSharesIff | backend/src/cache/list_cache_service.rs:72-93 | over any run, one lock per key up to a point if and only if every event before it was orderly |
| ListCacheLocks.OrderlyRunsExclude | backend/src/cache/list_cache_service.rs:247-248 | after orderly events no two requests of one key are past the lock |
| ListCacheLocks.DisorderAdmitsTwo | backend/src/cache/list_cache_service.rs:72-93 | every event that is not orderly can be continued to two requests of its key past the lock at once |
| ListCacheLocks.TwoFetchAtOnce | backend/src/cache/list_cache_service.rs:86-93 | a run in which two requests for one key fetch at the same time |
| ListCacheClient.FillIsNext | backend/src/cache/list_cache_service.rs:252-260 | how far one request extends the cache depends on chunk sizes alone, and it asks for exactly those chunks |
| ListCacheClient.RoomyReaches | backend/src/cache/list_cache_service.rs:17-17 | when eight chunks make a page, every page is reached |
| ListCacheClient.CursorsDistinct | backend/src/cache/list_cache_service.rs:254-257 | a finite upstream list never uses a cursor twice |
| ListCacheClient.ReadAll | backend/src/cache/list_cache_service.rs:237-266 | reading pages until "no more" terminates and asks for each unknown chunk once, in order; it yields the upstream list if and only if, by the chunk sizes, every page's request reaches its end, as it always does with roomy chunks |
| ListCacheClient.CapCanSkipItems | backend/src/cache/list_cache_service.rs:17-17 | concrete one-item chunks for which items 8 and 9 appear on no page |
| TmpQuota.StepKeepsQuotaIff | storage/src/routes/upload.rs:34-57 | a fetch_add, check, rollback or drop keeps the counter exact if and only if the add does not overflow; then holdings stay within the limit |
| TmpQuota.QuotaHolds | storage/src/routes/upload.rs:34-57 | over every interleaving: counter = initial + held + unsettled, and initial + held never exceeds the limit it started within |
| TmpQuota.NothingLeaks | storage/src/routes/upload.rs:49-57 | when all reservations are dropped the counter is back where it began |
| TmpQuota.AdmittedByUsage | storage/src/routes/upload.rs:34-47 | over a run: a chunk is let in if and only if the usage at the moment of its add, with it, is within the limit (or the limit is the greatest 64-bit number), whatever others do in between |
| TmpQuota.UnlimitedAlwaysAdds | storage/src/routes/upload.rs:35-38 | without a configured limit nothing is refused and the shared counter is left alone |
| TmpQuota.WrapBreaksQuota | storage/src/routes/upload.rs:34-57 | a whole run from no usage: two chunks of the greatest possible length awaiting rollback wrap the counter, and 12 bytes are held under a limit of 10 |
| UploadSpace.StepKeepsInv | storage/src/routes/upload.rs:110-208 | every event of a handler or of the pipeline keeps the quota exact, the pipeline's invariant, each upload's files within its reservation, and each source file counted with one upload |
| UploadSpace.SourcesWithinHoldings | storage/src/routes/upload.rs:110-208 | in every interleaving of handlers and pipeline the source files on disk take no more than the live reservations hold plus what finished uploads left behind |
| UploadSpace.ReservedExactly | storage/src/routes/upload.rs:34-187 | in every run what an upload has on disk, with the chunk let in but not yet written, is exactly what it has reserved, until its source is removed or abandoned |
| UploadSpace.CleanRunsFit | storage/src/pipeline.rs:120-231 | in a run without a leaking event the sources on disk never exceed what is held, nor the limit the usage started within |
| UploadSpace.RunLeavesIff | storage/src/routes/upload.rs:130-187 | up to any moment some upload has left bytes behind if and only if a file field followed a file with bytes, or a handler returned without removing one |
| UploadSpace.RestLeavesFilesIff | storage/src/routes/upload.rs:110-208 | once every upload is over nothing is held, and source files remain on disk if and only if some event leaked |
| FileLocks.AppState.FileLock | storage/src/main.rs:37-48 | the live mutex of the name, or a new one after purging dead entries |
| FileLocks.AppState.DropLock | storage/src/main.rs:33-41 | the last dropped reference makes the weak entry dead |
| FileLocks.LookUpKeepsLive | storage/src/main.rs:37-48 | purging never disturbs the entry of a live holder |
| FileLocks.StepKeepsInv | storage/src/routes/upload.rs:204-207 | every lookup, acquire, release and drop keeps table and holders in agreement |
| FileLocks.OneInsidePerFilename | storage/src/routes/upload.rs:204-207 | in every run live holders share a mutex if and only if they share a filename, and at most one per filename is inside submit |
| FileLocks.GoesInsideIff | storage/src/routes/upload.rs:204-205 | in every run a handler with its lock can go inside if and only if no handler for the same filename is inside |
| FileLocks.FoundLock | storage/src/main.rs:37-48 | in every run the lock found is the one live handlers for the filename have, and nobody else's |
| FileLocks.MissPurges | storage/src/main.rs:43-46 | after a miss the table names exactly the live filenames and the new one |
| Dispatcher.DispatcherLoop | storage/src/pipeline.rs:74-118 | the loop's batches are 1 to batch_size long and concatenate to the arrivals |
| Dispatcher.Collect | storage/src/pipeline.rs:86-103 | one turn takes the first job and more until full, deadline or close |
| Dispatcher.BatchesKeepOrder | storage/src/pipeline.rs:85-103 | the batches, one after another, are the jobs in arrival order |
| Dispatcher.BatchSizes | storage/src/pipeline.rs:89-103 | no batch is empty or above the size |
| Dispatcher.UnderfullWasCut | storage/src/pipeline.rs:93-101 | each batch that is not full was cut at a point where exactly its jobs and those of the batches before it had arrived: by a deadline, or by the channel's close and then it is the last |
| Dispatcher.UnderfullNeedsDeadline | storage/src/pipeline.rs:93-101 | at most one more batch is not full than deadlines have passed |
| Dispatcher.NoBatchSpansDeadline | storage/src/pipeline.rs:93-101 | the jobs that arrived before a deadline are those of whole batches |
| Pipeline.BatchRunner.RunBatch | storage/src/pipeline.rs:120-206 | files removed and made, replies sent and tasks spawned by one batch, in all four outcomes |
| Pipeline.BatchRunner.Probe | storage/src/pipeline.rs:134-147 | short jobs are answered and their source removed; the others are accepted in order |
| Pipeline.ReplyOfBatch | storage/src/pipeline.rs:120-231 | in every run, whatever ffmpeg does, an answered job rode in exactly one batch, its reply is the one that batch gives, and it differs from the one alone if and only if ffmpeg took the batch's accepted jobs and refuses it alone |
| PipelineReplies.ReplyTells | storage/src/pipeline.rs:120-231 | in every run a reply is TooShort if and only if the probe read 0 < d <= 30; an ffmpeg failure if and only if the job is not short and ffmpeg refused both the batch's inputs and the job alone; otherwise the result of the commit, with the probed duration or 0 |
| Pipeline.BatchingIsInvisibleIff | storage/src/pipeline.rs:159-205 | at any moment of any run all replies are as if alone if and only if no answered job was taken only because of its batch |
| Pipeline.EffectKeepsJobs | storage/src/pipeline.rs:120-231 | each task step answers a job or hands it to exactly one later task |
| Pipeline.EffectOnTrack | storage/src/pipeline.rs:120-258 | each step carries a job towards the reply its batch gives it and removes its files before replying |
| Pipeline.StepKeepsInv | storage/src/pipeline.rs:74-258 | every submit, batch cut, spawn and task step keeps the pipeline's invariant |
| Pipeline.AnsweredOnceAsAlone | storage/src/pipeline.rs:120-258 | in every schedule no job is answered twice and its source and staged output are gone by its reply; if ffmpeg takes a batch only when it takes each input, each reply is the one the job would get alone |
| Pipeline.IdleMeansAllAnswered | storage/src/pipeline.rs:120-258 | with nothing left to do every submitted job has been answered once and no file remains |
| Pipeline.StepProgresses | storage/src/pipeline.rs:85-230 | cutting a batch, spawning it and every task step use up a common measure of work |
| Pipeline.NeverStuck | storage/src/pipeline.rs:85-117 | while anything is left some step other than a submission can be taken |
| Pipeline.StoppedRunsDrain | storage/src/pipeline.rs:74-231 | once submissions stop only boundedly many steps remain, and a run that can go no further has answered every submitted job exactly once and left no file |
| Pipeline.PermitsRespected | storage/src/pipeline.rs:81-116 | never more batches in flight than permits |
| PipelineReplies.BatchesInOrder | storage/src/pipeline.rs:74-118 | in every run the batches take the jobs in the order of submission, between one and the batch size at a time |
| PipelineReplies.StagedIff | storage/src/transcode.rs:81-103 | at every moment a job has a staged output if and only if its commit is still to be done: nothing a failing ffmpeg leaves survives the step |
| PipelineReplies.SourceIff | storage/src/pipeline.rs:120-231 | at every moment a submitted job's source is there until the step before its reply |
| Writer.ProcessWriterJob | storage/src/pipeline.rs:322-355 | stops at the first outcome that is no failure or after r+1 attempts; what it answers, sleeps and removes |
| Writer.TotalBackoffBound | storage/src/pipeline.rs:344-351 | total backoff is base × (2^(n+1) − 2) up to 6 pauses, base × (126 + 64(n − 6)) beyond, and less only by saturation |
| Writer.BoundGrows | storage/src/pipeline.rs:344-351 | fewer attempts never sleep longer than the bound for more |
| Writer.PausesDouble | storage/src/pipeline.rs:344-351 | pauses double from twice the base up to the sixth and stay there; one that does not fit is the greatest 64-bit number |
| LocalStore.LocalBackend.CommitTranscode | storage/src/backend/local.rs:28-63 | one commit in any weather of the file system, failing removals and partial copies included: the disk afterwards and the result |
| LocalStore.LocalBackend.ShouldKeepExisting | storage/src/backend/local.rs:122-140 | keep if and only if both probes succeed and the stored one is at most two seconds shorter |
| LocalStore.LocalBackend.MoveOrCopyFile | storage/src/backend/local.rs:142-152 | rename, or copy and remove across devices, or fail |
| LocalStore.LocalBackend.ReplaceFile | storage/src/backend/local.rs:154-167 | rename, or unlink the old file and rename again |
| LocalStore.SuccessKeepsOne | storage/src/backend/local.rs:28-63 | success leaves exactly one of the two tracks at the key, by the two-second rule, no staging file, and no other file touched; the upload stays only if it was not wanted and could not be removed |
| LocalStore.SuccessStoresUploadIff | storage/src/backend/local.rs:122-140 | a successful commit stores the upload if and only if nothing is stored, one of the durations cannot be read, or the upload is longer by more than two seconds |
| LocalStore.SucceedsIff | storage/src/backend/local.rs:28-63 | exactly which answers of the file system make a commit succeed |
| LocalStore.FailureKeepsOldIff | storage/src/backend/local.rs:154-167 | a failed commit keeps the stored track unless the upload was moved, the first rename fails, the unlink works and the second rename fails; the staging file stays only if its removal fails |
| LocalStore.FailureKeepsUploadIff | storage/src/backend/local.rs:52-60 | a failed commit keeps the upload if and only if it failed before the move was complete |
| LocalStore.RetryWithoutUploadFails | storage/src/backend/local.rs:52-55 | without the upload a retry fails whatever the file system does, and changes nothing |
| LocalStore.CommitMeansLonger | storage/src/backend/local.rs:122-140 | the stored duration after a commit, from the two durations before |
| LocalStore.StoredNearLongest | storage/src/backend/local.rs:28-63 | over any history of commits the stored duration is a candidate's, never decreases, and is within two seconds of every candidate seen |
| WriterOnDisk.UnmovedAttempts | storage/src/pipeline.rs:329-352 | attempts that do not get the upload to its staging name all fail and change nothing but staging files that could not be removed |
| WriterOnDisk.SpentAttempts | storage/src/pipeline.rs:329-352 | once a failed attempt has used up the upload every retry fails and changes nothing |
| WriterOnDisk.JobDecided | storage/src/pipeline.rs:329-352 | the first attempt that moves the upload decides success and, up to staging files, the final disk |
| WriterOnDisk.RunWriterJob | storage/src/pipeline.rs:322-355 | a whole retried job on local disk: success if and only if the stored track is kept or the first moving attempt replaces it; the key holds the old or the new track unless that attempt lost both; but for staging files and the upload no other file changes |
| TaggedCache.CacheService.SetRaw | backend/src/cache/cache_service.rs:71-99 | the transaction on data and index: the new entry in place of any old one, expired members dropped, index expiry replaced |
| CacheReads.ReadsBackIff | backend/src/cache/cache_service.rs:71-99 | over any run what was written last under a key is read back if and only if its lifetime has not passed and no clear has visited an index it was in; nothing else is ever read |
| CacheReads.ReadsBack | backend/src/cache/cache_service.rs:71-161 | so it is read back for its lifetime as long as no clear names a tag the key was ever written under |
| CacheReads.FiledByWrite | backend/src/cache/cache_service.rs:86-95 | over any run a key is in an index only if it was written under that tag |
| CacheReads.FiledAfterWrite | backend/src/cache/cache_service.rs:86-95 | a write leaves in its index itself and the members not yet expired |
| CacheReads.WriteLeavesOthers | backend/src/cache/cache_service.rs:82-85 | writing one key changes no other key's answer |
| CacheReads.VisitsIff | backend/src/cache/cache_service.rs:106-123 | a clear visits a tag's shared index if and only if the tag is a trimmed spelling of a key asked for; the own index if, besides, a session is given |
| TaggedCache.CacheService.ClearIndex | backend/src/cache/cache_service.rs:147-161 | every member of the live index is deleted, then the index |
| TaggedCache.CacheService.DeleteChunks | backend/src/cache/cache_service.rs:155-158 | the 500-key chunks delete exactly the members |
| TaggedCache.CacheService.ClearByCacheKeys | backend/src/cache/cache_service.rs:101-131 | clearing index after index equals clearing all of them at once |
| TaggedCache.CacheService.CollectIndexKeys | backend/src/cache/cache_service.rs:106-123 | the shared and own-session index of every trimmed, non-blank key |
| TaggedCache.SetKeepsCoverageIff | backend/src/cache/cache_service.rs:88-95 | a write keeps every live entry covered by its index if and only if nothing live under the index outlasts it |
| TaggedCache.TickKeepsCoverage | backend/src/cache/cache_service.rs:88-95 | time passing keeps coverage |
| TaggedCache.ClearRemovesTagged | backend/src/cache/cache_service.rs:147-161 | a clear leaves no live entry tagged with a cleared index, keeps coverage and every entry not filed there |
| TaggedCache.RunCovered | backend/src/cache/cache_service.rs:71-161 | in every well-timed run every live entry is a member of its live index |
| TaggedCache.RunCoveredIff | backend/src/cache/cache_service.rs:71-161 | over any run with positive lifetimes every state is covered if and only if every write was well timed |
| TaggedCache.BadWriteUncovers | backend/src/cache/cache_service.rs:88-95 | from any covered state, every badly timed write leaves, once its own lifetime has passed, a live entry of its tag that a clear does not remove |
| TaggedCache.InvalidationIsComplete | backend/src/cache/cache_service.rs:101-161 | after well-timed operations and clear_by_cache_keys, however its keys are padded, nothing shared or of the session last written under a trimmed key can be read |
| TaggedCache.ShortWriteUncovers | backend/src/cache/cache_service.rs:94-94 | a concrete short write after which a long entry survives its clear |
| TaggedCache.IndexKeyInjective | backend/src/cache/cache_service.rs:164-174 | shared keys of different tags differ, and from user keys; user keys differ by tag or session as long as no session id holds a colon |
| TaggedCache.ColonCollides | backend/src/cache/cache_service.rs:166-171 | with a colon in a session id two sessions can share an index |
| TaggedCache.SessionsShareIff | backend/src/cache/cache_service.rs:164-174 | some tags of two sessions share an index if and only if the session texts are equal or one starts with the other followed by a colon |
| CacheKeys.TrimIdentityIff | backend/src/cache/cache_service.rs:108-111 | trimming keeps a key if and only if no white space is at its ends |
| CacheKeys.TrimPadding | backend/src/cache/cache_service.rs:108-108 | trimming takes off exactly the white space around a key |
| CacheKeys.CollectTrimmed | backend/src/cache/cache_service.rs:106-112 | the loop both invalidations start with collects exactly the trimmed, non-blank keys |
| TaggedCache.OwnKeyReachedIff | backend/src/cache/cache_service.rs:106-123 | a clear by the very key of a write reaches its index if and only if the key is trimmed and not empty |
| Playlists.NameRoundTrips | desktop/src/stores/ym-import.ts:85-95 | a chunk's title reads back as its index |
| Playlists.NamesDistinct | desktop/src/stores/ym-import.ts:85-87 | different chunks have different titles |
| Playlists.TitlesOfIndex | desktop/src/stores/ym-import.ts:89-95 | exactly which titles read as chunk i: its name, and that name with zeros before the number |
| ImportOrder.FirstTitles | desktop/src/stores/ym-import.ts:85-87 | the first, second and twelfth title |
| Playlists.ChunkArray | desktop/src/stores/ym-import.ts:77-83 | the slicing loop yields ceil(n / size) chunks that flatten to the input |
| Playlists.ChunksFlatten | desktop/src/stores/ym-import.ts:77-83 | the chunks concatenate to the items |
| Playlists.ChunkSizes | desktop/src/stores/ym-import.ts:77-83 | every chunk is full but a non-empty last one; there are ceil(n / size) |
| Playlists.JoinInjective | desktop/src/stores/ym-import.ts:235-235 | equal chunk keys mean equal chunks when no urn holds a NUL |
| ImportSync.StepLosesNone | desktop/src/stores/ym-import.ts:209-325 | every event keeps each request served, in flight with its flags, or queued with its flags |
| ImportSync.StepContents | desktop/src/stores/ym-import.ts:227-274 | every event keeps the chunks below the flight's position at its snapshot and the others at the last completed sync |
| ImportSync.SkippedIsHeld | desktop/src/stores/ym-import.ts:242-244 | a chunk skipped for an unchanged key is already there |
| ImportSync.SyncIsExact | desktop/src/stores/ym-import.ts:233-274 | when a sync completes each chunk playlist equals its chunk of the target for the matches as of the sync's start |
| ImportOrder.FinishNewestFirst | desktop/src/stores/ym-import.ts:227-274 | when a sync completes, playlist i has at place p the match 500 * i + p counted from the newest, and is exactly as long as there are matches for it, up to 500 |
| ImportSync.RestMeansServed | desktop/src/stores/ym-import.ts:216-221 | at rest every request was met by a sync with its finalize and delete-stale flags begun no earlier |
| ImportSync.RestMeansFullUpload | desktop/src/stores/ym-import.ts:209-325 | at rest after a request past the last match the service holds the target of all matches, with no excess playlist if stale ones were to go |
| ImportOrder.RestNewestFirst | desktop/src/stores/ym-import.ts:209-325 | at rest the same for all matches of the run's events, and no playlist of the import is left beyond them if stale ones were to go |
| ImportSync.ForeignUntouched | desktop/src/stores/ym-import.ts:186-207 | playlists not titled by the import are never changed |
| ImportSync.DeletedOnlyWhenStale | desktop/src/stores/ym-import.ts:186-207 | a playlist disappears only in a deleting sync and only when its chunk is gone |
| ImportSync.FinalizeRewritesAll | desktop/src/stores/ym-import.ts:242-246 | a finalizing sync writes every chunk whatever the client believed |
| ImportSync.CallWaitsIff | desktop/src/stores/ym-import.ts:216-221 | in every run the sync a request asks for is complete when its call returns if and only if no sync was in flight at the call |
| ImportSync.WaitingCallUploads | desktop/src/stores/ym-import.ts:303-318 | a call made with nothing in flight returns with the queue drained, every request met and, without new matches, the target on the service |
| ImportOrder.WaitingCallNewestFirst | desktop/src/stores/ym-import.ts:303-318 | the same when a waiting call returns without new matches |
| ImportOrder.SkipsIff | desktop/src/stores/ym-import.ts:242-244 | a playlist is left unwritten if and only if the sync does not finalize and its matches are, place by place, those of the last completed sync |
| ImportSync.FinalRequestMayReturnEarly | desktop/src/stores/ym-import.ts:370-378 | a run in which the final request returns with nothing uploaded yet |
| AuthRecovery.Recovery.RunRenew | desktop/src/lib/auth-recovery.ts:31-42 | starts a renewal and its generation unless one is in flight |
| AuthRecovery.Recovery.RenewSettles | desktop/src/lib/auth-recovery.ts:42-56 | what a renewal does when it succeeds, fails, or fails cancelled |
| AuthRecovery.Recovery.StartRecovery | desktop/src/lib/auth-recovery.ts:61-72 | invalid session, busy phase and cooldown guards, else a silent renewal |
| AuthRecovery.Recovery.NoteRateLimit | desktop/src/lib/auth-recovery.ts:75-83 | the hit window and its threshold |
| AuthRecovery.Recovery.NoteSuccess | desktop/src/lib/auth-recovery.ts:95-101 | clears hits and cancels a silent or idle-modal recovery |
| AuthRecovery.Recovery.CompleteReauth | desktop/src/lib/auth-recovery.ts:109-117 | marks recovered if the session is accepted |
| AuthRecovery.StepKeepsInv | desktop/src/lib/auth-recovery.ts:25-117 | every event, dismissing the modal included, keeps: one unsettled renewal named by the flight flag, rest when none, nothing shown once cancelled |
| AuthRecovery.RestIsQuiet | desktop/src/stores/auth-recovery.ts:35-45 | over every interleaving at most one renewal is unsettled, and with none the phase is idle or modal and never busy |
| AuthRecovery.FailureOpensModalIff | desktop/src/lib/auth-recovery.ts:47-52 | a failure opens the modal if and only if its generation was not cancelled |
| AuthRecovery.CancelledStaysQuiet | desktop/src/lib/auth-recovery.ts:95-101 | from cancellation until the renewal settles nothing is shown, whatever else happens |
| RecoveryRuns.CalledOffStaysQuiet | desktop/src/lib/auth-recovery.ts:42-101 | over a run: once a success has called a renewal off nothing is shown up to and including the state after its failure |
| RecoveryRuns.FailureShownIff | desktop/src/lib/auth-recovery.ts:42-101 | over a run: a renewal's failure opens the modal if and only if no success called it off since it started |
| RecoveryRuns.SilentStartIff | desktop/src/lib/auth-recovery.ts:61-92 | over a run: a silent renewal starts if and only if a gap or a third hit in fifteen seconds asks for one while none is unsettled, the session is valid, nothing is shown and every recovery is five seconds past |
| RecoveryRuns.HitsForgotten | desktop/src/lib/auth-recovery.ts:75-96 | a success, and every third hit in the window, starts the counting of hits anew |
| RecoveryRuns.KeepsThreeIff | desktop/src/lib/auth-recovery.ts:77-79 | three hits are kept exactly when the third last is less than fifteen seconds before the last |
| RecoveryRuns.RetryStarts | desktop/src/lib/auth-recovery.ts:31-40 | a retry starts a renewal exactly when none is unsettled, shown as busy in the phase it was |
| RecoveryRuns.LeavesNothingShown | desktop/src/lib/auth-recovery.ts:42-117 | success, accepted re-authentication, dismissal, giving up the session and asking without one leave nothing shown |
| AuthRecovery.ReauthDoesNotCancel | desktop/src/lib/auth-recovery.ts:109-117 | a renewal begun before a re-authentication still opens the modal when it fails |
| AuthRecovery.RecoveredAtIsLatest | desktop/src/stores/auth-recovery.ts:43-43 | the kept recovery time is no earlier than any recovery, one marked by a success included |
| AuthRecovery.NoSilentRenewInCooldown | desktop/src/lib/auth-recovery.ts:69-71 | no silent renewal starts within five seconds of any recovery, one marked by a success included |
| AuthRecovery.KeptIsWindow | desktop/src/lib/auth-recovery.ts:77-78 | pruning on every hit keeps exactly the hits of the last window |
| AuthRecovery.ThirdHitInWindow | desktop/src/lib/auth-recovery.ts:75-83 | in a burst recovery is attempted at exactly the first hit with three hits in the fifteen seconds up to it |
| Transcodings.RankedTranscodings | streaming/src/stream/anon.rs:443-497 | the four passes return every usable entry once, sorted by half, first-of-preset rank and original position |
| Transcodings.FindPreset | streaming/src/stream/anon.rs:469-476 | the first candidate of the half with the preset, or none exists |
| Transcodings.PushPresets | streaming/src/stream/anon.rs:469-490 | a preset loop places the first entry of each preset in preference order |
| Transcodings.PushRest | streaming/src/stream/anon.rs:477-495 | a rest loop places what is left of the half, in original order |
| Transcodings.RankingUnique | streaming/src/stream/anon.rs:443-497 | there is only one such order, so the specification determines the result |
| Transcodings.RankingReads | streaming/src/stream/anon.rs:461-495 | read off: no repeats, progressive first, preset firsts by preference, then original order |
| Transcodings.RankedIff | streaming/src/stream/anon.rs:443-455 | ranked are exactly the entries whose protocol does not contain "encrypted", that are not snipped, and whose address does not contain "/preview" |
| Transcodings.RankingTells | streaming/src/stream/anon.rs:461-495 | an entry stands before exactly those it outranks: by being progressive, then by being the first of a more preferred preset, then by position |

## Left out

- The desktop's views, audio engine, visualiser, i18n and settings, and the player's volume, rate, pitch, playback context, transport and persistence: no invariant spans them.
- The admin panel, the worker, the Discord bridge and small pure helpers: they would only add easy members.
- HTTP handlers, multipart parsing, and the Redis, NATS, S3, Drive, ffmpeg and ffprobe clients: maps, file sets and outcome parameters stand for them; only the local storage backend is modelled.
- PlayerStore.Store.MoveInQueue: a row must be found at `from`; otherwise the source's splice puts an undefined entry into the queue, which no list of tracks can hold. `MoveMakesHoleIff` states exactly when; runs do not go on from there.
- Track metadata is a map of string fields plus the urn; a merge takes the new urn, which is the same one.
- rescan_tmp_usage: its load, walk and subtraction are not atomic towards held reservations, so it does not keep the counter exact.
- TmpQuota.QuotaHolds: covers runs without rescan and without an add that overflows the 64-bit counter; a chunk has at most 2^63 − 1 bytes, the greatest length of a buffer.
- ListCache.Service.GetPage: page and limit are naturals and `(page + 1) * limit` does not overflow 64 bits; the handlers clamp both.
- ListCacheRuns.StoredIsUpstreamPrefix: an upstream list answers a cursor the same way every time, and one key is always fetched with one chunk size; changing lists are not modelled.
- The prefix scan that deletes list keys by pattern is the event that drops any key; its own loop is not modelled.
- UploadSpace.SourcesWithinHoldings: a quota is configured; runs without rescan and without an overflowing add; the pipeline's removals and the handler's own succeed; handlers are not cancelled, and locks by filename are left to FileLocks.
- FileLocks.OneInsidePerFilename: a handler's guard and reference are dropped in the source's order when it completes; handlers cancelled by a client disconnect, whose jobs live on, are not modelled.
- Pipeline.AnsweredOnceAsAlone: assumes removals succeed and no task panics; one run_batch is a single step on its own files, which carry fresh UUIDs.
- Pipeline.PermitsRespected: bounds batches; the per-file retries outlive their batch's permit in the source and are not bounded.
- Dispatcher.DispatcherLoop: the receiver and the timer are a script of jobs and deadlines; channel capacity is not modelled, and the semaphore is in Pipeline.
- Writer.ProcessWriterJob: the attempt counter does not overflow 32 bits (fewer than 2^32 − 1 retries).
- LocalStore.StoredNearLongest: durations are reals, so NaN is not modelled; no delete of the key in between.
- LocalStore.LocalBackend.CommitTranscode: the missing-parent error cannot arise for the keys used.
- TaggedCache.InvalidationIsComplete: operations run one after another on one clock and Redis commands succeed; an entry lives while the clock is below its expiry.
- TaggedCache.CacheService.ClearIndex: a set_raw that lands between reading an index and deleting it is not modelled.
- build_key: the response key is a parameter; its hash is not modelled.
- Playlists.NameRoundTrips: indexes are unbounded naturals; JavaScript represents them exactly up to 2^53.
- ImportSync.SyncIsExact: service calls succeed and return the playlist written, titles are unique, and one import run is modelled; failed or queued writes, failed listings and a run overlapping an older run's sync are not.
- ImportSync.RestMeansFullUpload: the debounce timer is a request at any time; its delay choice is not modelled.
- AuthRecovery.RestIsQuiet: the renewal request itself, query invalidation and user fetching are outside; logging out during a renewal is a session change followed by the failure.
- extract_sc_cursor and build_list_cache_key are string plumbing and are not modelled.
