# A verified model of the Gen-I knowledge assistant

This project models the stateful parts of the assistant's backend, and the stream reader of
its web client, and proves what they are for: which states can be reached, what each run
keeps, and which inputs break a promise.

* **Retrieval cache** (`RetrievalCache`, `RetrievalFreshness`, `RetrievalCalls`,
  `RetrievalLocks`, `CacheService`, `QueryCodes`). Searches and query embeddings read through a shared store with a
  generation counter and token locks, interleaved step by step with ingestions that commit and
  then advance the generation. `RetrievalCalls` says what one call does from its beginning to its
  end, `CacheService` has the store and a call as objects, and `QueryCodes` compares the codes of
  a query with its key.
* **Rate limiter** (`RateLimiter`, `RateBounds`). The atomic multi-key script over
  fixed-window counters in a timed store, and bounds over whole runs.
* **Ingestion** (`DocumentVersions`, `VersionHistory`, `VectorStore`, `OverlappingIngestions`, `KnowledgeBase`,
  `ChunkIds`). The versions of one document under interleaved uploads; vectors and embedding
  rows under batches, failures and compensation; the identifiers that make compensation safe;
  and all of them together.
* **Answer cache** (`AnswerCache`, `AnswerHits`). Links, exact entries and the bounded semantic
  index, driven by feedback, and what a question finds in it.
* **Streaming chat** (`Json`, `JsonRoundTrip`, `JsonPrefixes`, `ChatStream`, `ChatShapes`,
  `ChatServer`, `ChatReplies`, `ChatRoundTrip`). The server's event generator over a lazily read model reply, JSON text as
  in RFC 8259, the incremental line parser, and the end-to-end theorem that connects them.
* **Credentials** (`Credentials`, `CredentialRuns`, `CredentialEffects`, `CredentialService`). Reset links,
  invitations, password changes, administrators and session checks as one state machine.
* **Chunker** (`Text`, `TextLines`, `Chunker`, `ChunkSplitters`, `BusinessCases`,
  `SmartChunker`, `ArticleContents`). Sections, splitters and numbering of an article.
* **Ranking** (`LexicalScore`, `WordParts`, `CodeThreshold`, `Ranking`, `RankingRules`) and
  **budgets** (`Budgets`, `PromptContents`). Scoring, merging, reranking and selection of hits; what fits into the prompt.
* **Decision lookup** (`DecisionLookup`, `DecisionTiers`). Exact answers from tables, and why their order does
  not matter.

Operations that change state are methods of classes or loops, each proved to compute a
function; the promises are then proved about that function, mostly over every run of events.
`Wrappers` and `Sequences` hold small helpers. `hide` statements only keep definitions out of
proofs that do not need them.

## Where the code and its promises differ

* An ingestion that is committed but has not advanced the generation can be missed by a hit
  (`RetrievalFreshness.CommittedCanBeMissed`); `RetrievalFreshness.LoneSearchMissesIff` says
  exactly when.
* A cached result answers some query with the same words up to case, although scoring is case
  sensitive for codes (`RetrievalFreshness.QueriesShareKeysIff`, `QueryCodes.OneKeyTwoScores`).
* The capped retry delay always suffices exactly for windows of at most an hour
  (`RateBounds.AdvertisedDelayAlwaysSufficesIff`).
* A failure after the activating commit undoes vectors and the current flag of a version that is
  already live (`DocumentVersions.LateFailureLeavesNoneCurrent`,
  `DocumentVersions.OneVersionIsCurrentIff`).
* A refused flush leaves vectors without rows, and an undo behind the commit leaves rows without
  vectors; nothing repairs either (`VectorStore.StoresAgreeWhenQuietIff`).
* The identifier check before inserting does not separate two uploads of one code and version
  (`OverlappingIngestions.OverlapsAgreeIff`); version numbers do (`KnowledgeBase.TraceIsSeparate`).
* A promoted answer loses its entry exactly by the demotion of another one under its key, or by
  loss (`AnswerCache.PromotedCachedIff`, `AnswerCache.SharedKeyIsLost`).
* A copied answer outlives the demotion of its source (`AnswerCache.CopySurvivesDemotion`).
* A token that cannot be encoded is stored but never sent (`ChatServer.StoredIsSentIff`).
* The comment that a chunk missing an asked code must lose holds for one code up to three, four or
  five specific words, by how the code stands among them, and not beyond
  (`CodeThreshold.OtherCodesDecideIff`, `CodeThreshold.CodeAmongWordsDecidesIff`,
  `CodeThreshold.HyphenatedCodeDecidesIff`), and in the final order only within a gap in
  similarity (`Ranking.CodesDecideWithinIff`).
* The history budget does not count line breaks (`Budgets.HistoryContextFitsIff`), by which it
  can be overrun without bound (`Budgets.OverrunGrows`), and a stored history with budget 0
  keeps its newest message whole (`Budgets.ZeroBudgetHoldsIff`).
* FAQ lines are lost when no line is a question (`ChunkSplitters.FaqKeepsLinesIff`), and the
  loader loses the index of a code that ends in an odd number of colons
  (`ChunkIds.IndexIsRecoveredIff`).
* The final-administrator rule also refuses harmless changes of pending accounts
  (`CredentialRuns.FinalAdminRuleIsNeededIff`), and an administrator whose role is stored in
  another spelling cannot edit the own account (`CredentialRuns.OwnUpdateSucceedsIff`).
* "Never guesses" depends on the walking order of a set exactly when the question says two key
  values of a column that show the same text (`DecisionLookup.OrderChangesAnswerIff`).

## Model

| member | source | states |
|---|---|---|
| `RetrievalFreshness.SearchIsFresh` | backend/app/services/retrieval_service.py:975-1254 | over every interleaving, whatever a search returns by any route was computed from every ingestion that had advanced the generation before the search read it, and answers the query up to case and spacing for this top_k |
| `RetrievalFreshness.RunKeepsFreshness` | backend/app/services/admin_ingestion_service.py:1224-1234 | every stored entry of generation g was computed from at least the ingestions committed when g was reached, in every reachable state |
| `RetrievalFreshness.LoneSearchMissesIff` | backend/app/services/retrieval_service.py:975-1254 | a search with nothing but time in between, its key free or held by somebody, misses a committed ingestion if and only if a usable entry missing it was stored under the current generation when it began |
| `RetrievalFreshness.CommittedCanBeMissed` | backend/app/services/admin_ingestion_service.py:1224-1234 | a run in which an ingestion that is committed, but has not advanced the generation, is missed by a search that begins after |
| `RetrievalFreshness.ComputesFromCorpus` | backend/app/services/retrieval_service.py:1130-1254 | from the start of its computation an undisturbed search sees everything committed |
| `RetrievalCalls.LoneCallLeaves` | backend/app/services/retrieval_service.py:975-1254 | however often a search or embedding call steps or sleeps undisturbed, its key free or held by somebody: it returns the usable payload that was stored when it began, still stored, or else what it computed from everything committed; what was computed well is then stored under its key, and a failure or a vector of the wrong length leaves nothing there |
| `RetrievalCalls.LoneCallEnds` | backend/app/services/retrieval_service.py:975-1254 | every such call does end, within sixty steps ten milliseconds apart |
| `RetrievalCalls.EmbeddingIsStored` | backend/app/services/retrieval_service.py:253-268 | an embedding that was not stored, or not usably, is computed, returned and then stored under the normal form of its query |
| `RetrievalCalls.MisfitIsNotStored` | backend/app/services/retrieval_service.py:259-283 | a vector of the wrong length is returned and leaves no entry |
| `RetrievalCalls.SearchIsStored` | backend/app/services/retrieval_service.py:1220-1247 | search results that were not stored are computed from everything committed, at most top_k of them, and stored under normal form, top_k and generation |
| `RetrievalCalls.RaisingFails` | backend/app/services/retrieval_service.py:1108-1254 | whichever read of a computation raises, the call fails and stores nothing |
| `RetrievalCalls.NextCallRepeats` | backend/app/services/retrieval_service.py:975-1062 | of two calls of one kind and normal form in a row the later returns what the first returned, even if computing would then fail |
| `RetrievalFreshness.SameWordsSameAnswer` | backend/app/services/cache_service.py:33-82 | so do two calls whose queries have the same words up to case |
| `RetrievalCalls.EntryIsTaken` | backend/app/services/retrieval_service.py:1040-1106 | a call that reads, polls or checks again under its lock when a usable entry is there returns it and computes nothing |
| `RetrievalCalls.WaitsIff` | backend/app/services/retrieval_service.py:1040-1106 | a call that found nothing usable takes a free lock, waits 150 milliseconds for a holder if nothing was stored under its key, and computes at once if it discarded something there |
| `RetrievalCalls.WaitsItsTime` | backend/app/services/cache_service.py:363-376 | over every interleaving a waiting call computes before its time is over only if something readable but unusable appeared under its key |
| `RetrievalCalls.BlankSearchFails` | backend/app/services/retrieval_service.py:980-983 | a search without words fails in every run and changes nothing in the store |
| `RetrievalFreshness.EmbeddingAnswersNormalForm` | backend/app/services/retrieval_service.py:144-283 | an embedding call returns the vector of a query with the same normal form |
| `RetrievalFreshness.QueriesShareKeysIff` | backend/app/services/cache_service.py:33-35 | two queries share their cache keys if and only if they have the same words up to case |
| `QueryCodes.LoweringKeepsKeyLosesCodes` | backend/app/services/retrieval_service.py:528-549 | a query and its lower-case form share their cached result, and the second asks for exactly the codes of the first that have a digit |
| `QueryCodes.OneKeyTwoScores` | backend/app/services/retrieval_service.py:642-654 | under that one key a chunk scores differently by 20 points for each code without a digit that it has or lacks |
| `QueryCodes.CapitalsAskForCode` | backend/app/services/retrieval_service.py:528-549 | PM and pm share their key, and only the first asks for a code |
| `QueryCodes.CodesAroundWord` | backend/app/services/retrieval_service.py:528-549 | a word between spaces adds itself in capitals to the codes of a query if and only if it has two to ten letters and digits and is in capitals or has a digit |
| `RetrievalLocks.OneHolderPerKey` | backend/app/services/cache_service.py:324-339 | in every reachable state at most one call holds an unexpired lock of a key |
| `RetrievalLocks.OthersNeverTakeTheLock` | backend/app/services/cache_service.py:341-361 | no step of another call, a late release included, takes away the lock of a call that still holds it |
| `RetrievalLocks.FinishedCallsLeaveNoLock` | backend/app/services/retrieval_service.py:1246-1254 | no live lock carries the token of a finished search or embedding call |
| `RetrievalLocks.LocksRunOut` | backend/app/services/cache_service.py:324-339 | in every reachable state, five quiet seconds later any caller gets the lock of any key |
| `RetrievalLocks.CallsAreShort` | backend/app/services/cache_service.py:363-377 | no call makes more than sixty moves or polls more than fifteen times in any run |
| `RetrievalLocks.StepMoves` | backend/app/services/retrieval_service.py:975-1254 | a call stands still exactly when it has finished or is sleeping |
| `RetrievalLocks.StepRanks` | backend/app/services/retrieval_service.py:975-1254 | every move of a call brings it nearer to its end |
| `CacheService.CacheStore.Read` | backend/app/services/cache_service.py:119-143 | reading returns the value and status, and deletes an entry that does not parse |
| `CacheService.CacheStore.Acquire` | backend/app/services/cache_service.py:324-339 | a free or expired lock is taken with a fresh token, a live one is left alone |
| `CacheService.CacheStore.Release` | backend/app/services/cache_service.py:341-361 | only a live lock with the caller's own token is removed |
| `CacheService.CacheStore.BoundedWait` | backend/app/services/cache_service.py:363-377 | bounded waiting ends, within the polls and time it is given |
| `CacheService.CacheCall.RunToEnd` | backend/app/services/retrieval_service.py:975-1254 | every call terminates whatever happens to the store between its steps |
| `RateLimiter.DenialIsExact` | backend/app/services/auth_rate_limit_service.py:32-66 | a denial changes nothing, names the first saturated key, and its retry is the least positive whole number of seconds after which that key admits again |
| `RateLimiter.BoundedRetryAfter` | backend/app/services/auth_rate_limit_service.py:84-85 | the reported delay is always in 1..3600 and exact within it |
| `RateLimiter.AdvertisedDelaySufficesIff` | backend/app/services/auth_rate_limit_service.py:315-327 | waiting the advertised delay suffices if and only if the counter has at most an hour to live |
| `RateBounds.AdvertisedDelayAlwaysSufficesIff` | backend/app/services/auth_rate_limit_service.py:315-327 | it suffices after every denial of every run if and only if the policy's window is at most an hour |
| `RateLimiter.ChargeAllAt` | backend/app/services/auth_rate_limit_service.py:53-65 | an admitted call charges each of its keys once and no other key |
| `RateLimiter.FirstSaturated` | backend/app/services/auth_rate_limit_service.py:33-52 | the position found is saturated and none before it is |
| `RateLimiter.SigninLimits` | backend/app/services/auth_rate_limit_service.py:284-290 | the three sign-in keys are distinct |
| `RateLimiter.AuthRateLimiter.RunScript` | backend/app/services/auth_rate_limit_service.py:32-66 | the two loops of the script compute the specified store and reply |
| `RateLimiter.AuthRateLimiter.Reserve` | backend/app/services/auth_rate_limit_service.py:292-327 | a reservation computes the specified decision and new store |
| `RateLimiter.DecisionIsExact` | backend/app/services/auth_rate_limit_service.py:292-327 | a request passes if and only if the limiter is off or unreachable or no limit is saturated; it charges every limit if it passes in reach and nothing otherwise; a refusal names the category of the first saturated limit and a delay in 1..3600 |
| `RateLimiter.RefusalDelayIsExact` | backend/app/services/auth_rate_limit_service.py:315-327 | the delay told is the least that suffices if that is at most an hour, an hour that does not suffice if it is more, and the window for a counter that never expires |
| `RateLimiter.SigninAllowedIff` | backend/app/services/auth_rate_limit_service.py:284-327 | a sign-in passes if and only if account, address and both together are each below their own limit, counts once against each, and is refused for the first that is not |
| `RateLimiter.AuthRateLimiter.ClearKeys` | backend/app/services/auth_rate_limit_service.py:329-339 | clearing removes exactly the given keys |
| `RateLimiter.AuthRateLimiter.ClearSigninAccount` | backend/app/services/auth_rate_limit_service.py:174-180 | a successful sign-in clears the account and combined keys, not the address |
| `RateBounds.RateIsBounded` | backend/app/services/auth_rate_limit_service.py:32-66 | any interval of k windows contains at most (k + 1) times the limit admitted reservations on a key that is never cleared |
| `RateBounds.AllowedIsAdmitted` | backend/app/services/auth_rate_limit_service.py:292-327 | in every run callers are told to pass at exactly the times at which the script admits |
| `RateBounds.AllowedIsBounded` | backend/app/services/auth_rate_limit_service.py:292-327 | so any interval of k windows contains at most (k + 1) times the limit allowed requests |
| `RateBounds.RunKeepsWindows` | backend/app/services/auth_rate_limit_service.py:32-66 | over a run admitted reservations fall into windows that are disjoint, as wide as the policy says and never over the limit, and the counter counts the last one |
| `RateBounds.CountersAlwaysExpire` | backend/app/services/auth_rate_limit_service.py:56-64 | in every run a live counter has an expiry, is within the limit, and a retry is at most the window |
| `RateBounds.AddressBoundSurvivesClears` | backend/app/services/auth_rate_limit_service.py:174-180 | the bound on a client address holds although successful sign-ins clear other keys |
| `RateBounds.AccountBoundFailsWithClears` | backend/app/services/auth_rate_limit_service.py:174-180 | the bound on an account does not: whatever its limit, one successful sign-in from each of any different addresses is admitted at one instant |
| `DocumentVersions.OneVersionIsCurrentIff` | backend/app/services/admin_ingestion_service.py:992-1296 | under any interleaving of uploads and failures numbers stay 1..n and the document refers to the version activated last; exactly that version is flagged current and completed, except that none is if and only if an error behind its activating commit was recorded and no other was activated since |
| `DocumentVersions.OneVersionIsCurrent` | backend/app/services/admin_ingestion_service.py:992-1296 | without errors behind an activating commit exactly one version is flagged current, completed and pointed to |
| `DocumentVersions.FailureKeepsCurrent` | backend/app/services/admin_ingestion_service.py:1253-1296 | a failing upload changes neither the current version nor any other version |
| `VersionHistory.StatusTellsHistory` | backend/app/services/admin_ingestion_service.py:992-1296 | in every run a version is marked failed if and only if a failure of its upload was recorded, is processing if and only if its upload neither committed nor recorded one, and is completed or superseded otherwise |
| `VersionHistory.FailureIsRecorded` | backend/app/services/admin_ingestion_service.py:1256-1296 | a recorded failure, before or behind the commit, leaves its version failed and not current and all others as they were; an unrecorded one changes no version; the upload is over |
| `DocumentVersions.LateFailureIsHarmlessIff` | backend/app/services/admin_ingestion_service.py:1224-1296 | in every run, after an error behind the activating commit a version is current if and only if one was before and the failure is not recorded or another version has taken over |
| `DocumentVersions.LateFailureLeavesNoneCurrent` | backend/app/services/admin_ingestion_service.py:1224-1296 | the shortest run in which no version is left current |
| `DocumentVersions.LowerNumberCanBeCurrent` | backend/app/services/admin_ingestion_service.py:1186-1200 | the current version is the last activated, which can have a lower number than another |
| `DocumentVersions.NextNumberIsCount` | backend/app/services/admin_ingestion_service.py:910-915 | the next number continues a gapless numbering |
| `DocumentVersions.DocumentRows.ActivateVersion` | backend/app/services/admin_ingestion_service.py:1186-1224 | the loop demotes every other version and promotes this one |
| `DocumentVersions.DocumentRows.RecordFailure` | backend/app/services/admin_ingestion_service.py:1256-1296 | the failure record, before or behind the activating commit, touches only the upload's own version |
| `VectorStore.VectorCollection.Delete` | backend/app/services/milvus_writer_service.py:173-181 | deleting removes every copy of the identifiers and nothing else |
| `VectorStore.VectorCollection.InsertRecords` | backend/app/services/milvus_writer_service.py:136-170 | the batch loop succeeds exactly under the stated conditions and then adds just its identifiers; a failing batch leaves the collection as it was exactly when the undo works or nothing was inserted |
| `VectorStore.InsertsByBatches` | backend/app/services/milvus_writer_service.py:136-170 | vectors go in by two hundred at a time, in order, and the rest in the last batch |
| `VectorStore.KnowledgeStore.Ingest` | backend/app/services/admin_ingestion_service.py:1096-1262 | both stores get all identifiers or neither does, and the exact failures after which they differ |
| `VectorStore.StoresAgreeWhenQuietIff` | backend/app/services/admin_ingestion_service.py:1096-1262 | whichever ingestions of different codes or versions interleaved and wherever they failed, the stores hold the same identifiers when none is under way if and only if no needed undo was refused, no final flush was refused and no error behind a commit was undone |
| `VectorStore.PartedStays` | backend/app/services/milvus_writer_service.py:136-170 | once such a harm has parted the stores no later event brings them together |
| `VectorStore.IngestionIsAllOrNothing` | backend/app/services/milvus_writer_service.py:136-170 | ending an ingestion puts each of its identifiers once in both stores or in neither |
| `VectorStore.WithoutUndoes` | backend/app/services/milvus_writer_service.py:160-164 | deleting what was inserted restores the collection, because the identifiers were not in it before |
| `OverlappingIngestions.SharedIdentifierAgreesIff` | backend/app/services/admin_ingestion_service.py:1257-1262 | of two ingestions that both inserted an identifier and end one after the other, the stores agree on it at the end if and only if both commit or both fail |
| `OverlappingIngestions.BothCanPassTheCheck` | backend/app/services/milvus_writer_service.py:140-148 | the identifier check does not keep two ingestions of one code and version apart: both can pass it and insert |
| `OverlappingIngestions.OverlapAgreesIff` | backend/app/services/admin_ingestion_service.py:1096-1262 | one such run from empty stores ends, with nothing under way, in stores that agree if and only if both commit or both fail |
| `OverlappingIngestions.SharedIdentifierEndsIff` | backend/app/services/admin_ingestion_service.py:1096-1262 | of two ingestions that both inserted an identifier, whatever follows without harm, in whatever order and among whatever other ingestions, the stores agree on it once both are over if and only if both committed or both failed |
| `OverlappingIngestions.OverlapsAgreeIff` | backend/app/services/admin_ingestion_service.py:1096-1262 | the same from before their identifier checks, over every run in which both insert all their vectors before either is over |
| `KnowledgeBase.TraceIsSeparate` | backend/app/services/admin_ingestion_service.py:910-915 | because documents never hand out a version number twice, no upload begins to write a code and version that is under way or committed |
| `KnowledgeBase.LibraryAgreesIff` | backend/app/services/admin_ingestion_service.py:992-1296 | in every run of documents and stores together the stores agree when nothing is under way if and only if nothing harmful has happened |
| `ChunkIds.ChunkIdsDiffer` | backend/scripts/chunk.py:535-535 | a chunk identifier determines code and index |
| `ChunkIds.VersionedIdsDiffer` | backend/app/services/admin_ingestion_service.py:439-464 | a versioned identifier determines code, version and index |
| `ChunkIds.UploadIdsAreDistinct` | backend/app/services/admin_ingestion_service.py:439-464 | the identifiers of one upload are distinct |
| `ChunkIds.UploadsDoNotShareIds` | backend/app/services/admin_ingestion_service.py:439-464 | uploads of different codes or versions share no identifier |
| `ChunkIds.IndexIsRecoveredIff` | backend/scripts/load_chunks_to_postgres.py:28-36 | the loader recovers a printed index if and only if the code ends in an even number of colons |
| `AnswerCache.CacheMirrorsFeedback` | backend/app/services/ollama_service.py:497-554 | in every reachable state a link is promoted exactly when its latest feedback was helpful, promoted entries are backed by such a link, every cached answer was once rated helpful, and the index keeps its bound |
| `AnswerCache.BackedByCurrentRating` | backend/app/services/ollama_service.py:522-554 | while no link expired, every semantic entry is backed by a message whose current rating is helpful |
| `AnswerCache.PromotedCachedIff` | backend/app/services/ollama_service.py:522-554 | while all promoted answers are cached, an event leaves one uncached if and only if it demotes an answer under whose key another is promoted or loses the entry of a promoted answer |
| `AnswerCache.AlwaysCachedIff` | backend/app/services/ollama_service.py:522-554 | all promoted answers are cached at every point of a run if and only if none of its events does that |
| `AnswerCache.PromotedStaysCached` | backend/app/services/ollama_service.py:522-554 | in particular while every answer has a key that no live link has and no entry is lost |
| `AnswerCache.DemotionTakesSharedEntry` | backend/app/services/ollama_service.py:522-554 | in any state, of any two promoted answers under one key the demotion of either takes away the entry of the other |
| `AnswerCache.SharedKeyIsLost` | backend/app/services/ollama_service.py:522-554 | and any two answers generated under one key can come to this |
| `AnswerCache.DemotionRemovesOnlyItsOwn` | backend/app/services/ollama_service.py:522-554 | a demotion removes its own exact and semantic entries and nothing else |
| `AnswerCache.CopySurvivesDemotion` | backend/app/services/ollama_service.py:618-634 | an answer copied by a semantic hit is still served after the demotion of its source |
| `AnswerCache.BestIndex` | backend/app/services/ollama_service.py:416-444 | the entry found is usable, most similar and the earliest such |
| `AnswerCache.AnswerStore.PushBounded` | backend/app/services/cache_service.py:177-201 | the newest entry is put first and the list is cut to its bound |
| `AnswerCache.AnswerStore.RemoveItem` | backend/app/services/cache_service.py:203-223 | every equal item is removed and the others keep their order |
| `AnswerCache.AnswerStore.RecordAnswerFeedback` | backend/app/services/ollama_service.py:522-554 | promotion and demotion change links, exact entries and index as specified |
| `AnswerCache.AnswerStore.FindSimilarAnswer` | backend/app/services/ollama_service.py:416-444 | the loop computes the specified answer |
| `AnswerHits.SimilarityIsSum` | backend/app/services/ollama_service.py:410-413 | vectors of one length are as similar as the sum of their products, others not at all |
| `AnswerHits.FindsIff` | backend/app/services/ollama_service.py:416-444 | a question finds an answer if and only if some entry with an answer reaches the threshold with positive similarity; it is the answer of the most similar one, the newest of equals |
| `AnswerHits.ServedWasSimilar` | backend/app/services/ollama_service.py:618-634 | in every run each answer found or copied for a key is that of an entry which was in the index, and that similar to the question asked for the key, when it was asked |
| `AnswerHits.CopyIsServed` | backend/app/services/ollama_service.py:618-634 | copying a found answer caches it under the key that asked and changes nothing else |
| `AnswerHits.NewestIsKept` | backend/app/services/cache_service.py:177-201 | a pushed entry comes first and stays, the others keep their order, and only the oldest go when the list is full |
| `AnswerHits.PromotionCaches` | backend/app/services/ollama_service.py:522-554 | a helpful rating caches the answer under its key, puts its vector at the head of its model index and leaves other keys and models alone |
| `AnswerHits.PromotionIsFound` | backend/app/services/ollama_service.py:522-554 | after it a similar enough question finds an answer at least as similar |
| `AnswerHits.RemoveOfConcat` | backend/app/services/cache_service.py:203-223 | removing an item keeps the order of the others |
| `AnswerHits.DemotionUndoesPromotion` | backend/app/services/ollama_service.py:522-554 | withdrawing the rating of an answer not cached before restores links, exact entries and index, but for the oldest entry of a full index |
| `AnswerHits.ExpiredLinkTakesNoFeedback` | backend/app/services/ollama_service.py:493-530 | feedback on an expired link changes nothing, and its answer stays cached |
| `JsonRoundTrip.ReadUndoesWrite` | backend/app/routes.py:631-637 | reading the compact text of any JSON value gives the value back |
| `JsonRoundTrip.WriteHasNoControl` | backend/app/routes.py:631-637 | written text contains no control character, so an event is one line |
| `JsonRoundTrip.ReadEscaped` | backend/app/routes.py:631-637 | every string survives escaping and reading, whatever follows it |
| `JsonPrefixes.ReadValueMore` | backend/frontend/src/services/chatStream.ts:121-133 | more text never changes a value that was read, except a number at the very end |
| `JsonPrefixes.CutObjectIsNoValue` | backend/frontend/src/services/chatStream.ts:121-133 | no proper beginning of a written object can be read |
| `JsonPrefixes.TrailingTextIff` | backend/frontend/src/services/chatStream.ts:124-131 | behind a value that is no number only JSON white space may follow |
| `ChatStream.DeduplicateSources` | backend/frontend/src/services/chatStream.ts:46-60 | the loop keeps exactly the sources that repeat no earlier one |
| `ChatStream.KeptSourcesDiffer` | backend/frontend/src/services/chatStream.ts:46-60 | no kept source repeats another |
| `ChatStream.EverySourceIsRepresented` | backend/frontend/src/services/chatStream.ts:46-60 | every source is kept or repeats a kept one |
| `ChatStream.DistinctSourcesStay` | backend/frontend/src/services/chatStream.ts:46-60 | sources without repetition are left as they are |
| `ChatShapes.RepeatsById` | backend/frontend/src/services/chatStream.ts:46-60 | two sources with identifiers repeat each other if and only if they have the same one and it is no list or object |
| `ChatShapes.RepeatsByText` | backend/frontend/src/services/chatStream.ts:46-60 | two without, with the same rank, code and titles, if and only if they have the same text |
| `ChatShapes.SourceIsKeptIff` | backend/frontend/src/services/chatStream.ts:46-60 | whether a source is kept depends on those before it only |
| `ChatShapes.EventIffShaped` | backend/frontend/src/services/chatStream.ts:66-102 | a value is an event of a kind if and only if it is an object with that type and the members of the right types the kind needs |
| `ChatShapes.EventCarriesMembers` | backend/frontend/src/services/chatStream.ts:66-102 | and the event carries the values of those members |
| `ChatStream.NdjsonEventParser.ParseLines` | backend/frontend/src/services/chatStream.ts:121-133 | the events of the lines that are events, in order |
| `ChatStream.NdjsonEventParser.Feed` | backend/frontend/src/services/chatStream.ts:107-112 | a piece yields the events of the lines it completes and keeps the unfinished line |
| `ChatStream.NdjsonEventParser.Finish` | backend/frontend/src/services/chatStream.ts:114-119 | the last call yields the event of the unfinished line and empties the buffer |
| `ChatStream.ReadStream` | backend/frontend/src/services/chatStream.ts:185-199 | however a text is cut into pieces, the reader's loop yields the events of the whole text |
| `ChatStream.LinesOfConcat` | backend/frontend/src/services/chatStream.ts:107-112 | adding text changes only the unfinished line |
| `ChatStream.BreakSeparates` | backend/frontend/src/services/chatStream.ts:104-134 | texts before and after a line break are read independently |
| `ChatStream.BadLineLosesOnlyItself` | backend/frontend/src/services/chatStream.ts:124-131 | a line that is no event loses only itself |
| `ChatStream.BlankLinesCarryNothing` | backend/frontend/src/services/chatStream.ts:124-124 | skipping blank lines never skips a value |
| `ChatServer.OllamaStream.Next` | backend/app/services/ollama_service.py:700-762 | the generator yields the reply's items one by one, then stops or raises, and offers its answer to the cache only when it finished |
| `ChatServer.OllamaStream.SkipQuietLines` | backend/app/services/ollama_service.py:724-735 | blank, malformed and textless lines yield nothing |
| `ChatServer.OllamaStream.Close` | backend/app/services/ollama_service.py:745-762 | the clean-up runs once and links the whole trimmed answer exactly if the reply finished |
| `ChatServer.Relay` | backend/app/routes.py:700-760 | metadata and tokens are sent until the reply ends, a token fails or the client leaves, with the exact status and collected answer |
| `ChatServer.StreamEvents` | backend/app/routes.py:700-802 | what a run sends, stores and offers to the answer cache, cut off at any event by a disconnection |
| `ChatServer.RunsFollowTheProtocol` | backend/app/routes.py:700-802 | every undisturbed run sends metadata, tokens, at most one error and exactly one done event, which is partial exactly when there was an error |
| `ChatServer.StoredIsSentIff` | backend/app/routes.py:726-775 | the stored answer is the concatenation of the sent tokens exactly when no nonempty token failed to be encoded |
| `ChatServer.CandidateIffComplete` | backend/app/services/ollama_service.py:745-762 | whatever was sent or failed, an undisturbed run offers an answer to the cache if and only if it is complete, a key is known and the stored answer is not blank; the candidate is the stored answer, trimmed |
| `ChatServer.DoneIffFinishes` | backend/app/services/ollama_service.py:738-746 | the done item is yielded exactly when some line of the reply is the last one |
| `ChatReplies.YieldsPieces` | backend/app/services/ollama_service.py:724-746 | a reply yields one token for each nonempty piece on its lines up to and including the first last line, in order, and then the done item if there is such a line |
| `ChatReplies.StoresReply` | backend/app/routes.py:715-775 | an undisturbed run sends the pieces before the first that cannot be encoded, one by one behind the metadata, and stores the text up to that one and including it, or all of it |
| `ChatReplies.EndsAsIff` | backend/app/routes.py:735-802 | a run ends as complete, empty, interrupted, timed out or failed, with the error code that goes with it, exactly as the reply, its encodability and its ending say |
| `ChatReplies.CachedAnswerIsSent` | backend/app/services/ollama_service.py:702-710 | a cached answer is sent as one token, completes and is stored whole |
| `ChatRoundTrip.MetadataIsRecognised` | backend/frontend/src/services/chatStream.ts:81-101 | a sent metadata event is recognised with all its members, its sources deduplicated |
| `ChatRoundTrip.OtherIsRecognised` | backend/frontend/src/services/chatStream.ts:66-80 | token, done and error events are recognised unchanged |
| `ChatRoundTrip.LineIsRead` | backend/app/routes.py:631-637 | an event's line is read back as that event |
| `ChatRoundTrip.WireIsRead` | backend/frontend/src/services/chatStream.ts:104-134 | serialised events are recovered up to deduplication of sources |
| `ChatRoundTrip.CutStreamKeepsWholeLines` | backend/frontend/src/services/chatStream.ts:104-134 | a stream cut after any character yields exactly the events whose lines arrived whole |
| `ChatRoundTrip.ClientSeesTheRun` | backend/app/routes.py:700-802 | end to end: from any cutting of any beginning of a run's text the client sees the events that arrived whole, and all of them when everything arrived |
| `Credentials.RetireAll` | backend/app/services/password_reset_tokens.py:6-10 | exactly the user's outstanding links are withdrawn |
| `CredentialRuns.VersionCountsReplacements` | backend/app/services/password_reset_service.py:340-350 | over any run a user's token version grows by exactly the successful replacements of the credential |
| `CredentialRuns.SessionsDieWithCredentials` | backend/app/auth_dependencies.py:27-63 | after any activation, change, reset or admin reset every access token issued before is refused in every later state |
| `CredentialRuns.SessionLivesIff` | backend/app/auth_dependencies.py:27-63 | a fresh token is accepted exactly until it expires, its credential is replaced or while its user is inactive |
| `CredentialEffects.ReplacesIff` | backend/app/services/password_reset_service.py:306-374 | exactly when a reset, a change, an administrator's reset or an activation replaces the password of a user |
| `CredentialEffects.ReplacementSetsPassword` | backend/app/services/password_reset_service.py:340-350 | each of them sets the new password of its user, keeps role and activity, activates only by an activation, and touches no other account |
| `CredentialEffects.RunSetsLastPassword` | backend/app/services/password_reset_service.py:340-350 | after every run a user holds the password of the last replacement, or the one held before |
| `CredentialEffects.SignsInIff` | backend/app/services/auth_service.py:34-56 | after every run exactly that password signs in, while the account is active and activated |
| `CredentialEffects.NewPasswordSignsIn` | backend/app/services/auth_service.py:34-56 | after a replacement and until the next one the new password signs in and no other does |
| `CredentialEffects.ChangeRefusals` | backend/app/services/password_change_service.py:33-92 | exactly when a change is refused for which reason |
| `CredentialEffects.ResetRefusals` | backend/app/services/password_reset_service.py:306-338 | exactly when a reset with an existing link is refused for which reason |
| `CredentialRuns.ReachableStatesAreSound` | backend/app/services/password_reset_service.py:202-374 | in every reachable state a user has at most one outstanding reset link, and none is both used and withdrawn |
| `CredentialRuns.ReplacementLeavesNoResetLink` | backend/app/services/password_reset_tokens.py:6-10 | after any replacement of a credential no reset link of the user is outstanding |
| `CredentialRuns.ResetLinkWorksOnce` | backend/app/services/password_reset_service.py:306-374 | over any run a link resets a password at most once |
| `CredentialEffects.SecondUseIsRefused` | backend/app/services/password_reset_service.py:176-199 | in every later state a link that has set a password is refused as used |
| `CredentialEffects.RequestIssuesIff` | backend/app/services/password_reset_service.py:202-299 | a request issues a link if and only if the account can sign in and has no outstanding link younger than the cooldown; delivered, the link is its only outstanding one, undelivered it has none; all else is unchanged |
| `CredentialRuns.DeadLinkStaysDead` | backend/app/services/password_reset_service.py:176-199 | a used, withdrawn or expired link never works again |
| `CredentialRuns.LinkStaysOutstandingIff` | backend/app/services/password_reset_service.py:229-232 | a link stays outstanding exactly as long as no new link and no new credential withdraws it |
| `CredentialRuns.LinkCompletesIff` | backend/app/services/password_reset_service.py:306-374 | when a link issued earlier can still set an acceptable new password |
| `CredentialRuns.ActivatedOnce` | backend/app/services/invitation_service.py:192-213 | over any run an account is activated at most once, whichever invitations it was sent |
| `CredentialEffects.SecondActivationIsRefused` | backend/app/services/invitation_service.py:168-213 | an activation uses its invitation and no other link, and in every later state that one is refused as used |
| `CredentialEffects.InvitePends` | backend/app/services/invitation_service.py:106-131 | an invitation adds one pending account without a password and one outstanding link for it |
| `CredentialEffects.InvitedCanSignIn` | backend/app/services/invitation_service.py:192-213 | who is invited cannot sign in before the link sets a password, and then with that one only |
| `CredentialEffects.ResendIssuesIff` | backend/app/services/invitation_service.py:134-165 | an invitation is sent again if and only if the account is pending and none of its invitations is younger than a cooldown; the new link is its only outstanding one |
| `CredentialEffects.UndeliveredIsWithdrawn` | backend/app/services/invitation_service.py:83-103 | a link that could not be delivered does not work, and nothing else changes |
| `CredentialRuns.AnAdministratorRemains` | backend/app/services/admin_user_service.py:138-212 | an active administrator is left after every run |
| `CredentialEffects.UpdateSucceedsIff` | backend/app/services/admin_user_service.py:138-212 | an update succeeds if and only if the account exists, it does not take the actor's own activity or office, and the last counted administrator keeps office; it sets what was given and nothing else of anybody |
| `CredentialEffects.AdminsAreCounted` | backend/app/services/admin_user_service.py:128-135 | counted are exactly the active and activated accounts whose role is admin up to case and spaces |
| `CredentialRuns.FinalAdminRuleIsNeededIff` | backend/app/services/admin_user_service.py:161-169 | the final-administrator refusal prevents a loss exactly when the target itself counts and would stop counting |
| `CredentialRuns.AdminMeetsRuleOnlyOnPending` | backend/app/services/admin_user_service.py:156-169 | an acting administrator meets that refusal only for a pending account |
| `CredentialRuns.OwnUpdateSucceedsIff` | backend/app/services/admin_user_service.py:152-169 | for every role and active flag, an update of the own account succeeds if and only if it does not deactivate it and leaves an administrator with the role spelled admin; the final-administrator rule never decides it |
| `CredentialService.AccountTables.InvalidateOutstandingResets` | backend/app/services/password_reset_tokens.py:6-10 | the loop withdraws exactly the user's outstanding reset links |
| `CredentialService.AccountTables.InvalidateOutstandingInvites` | backend/app/services/invitation_service.py:150-156 | the loop withdraws exactly the user's outstanding invitations |
| `CredentialService.AccountTables.FindLatest` | backend/app/services/password_reset_service.py:98-110 | the newest link by creation, ties going to the later row |
| `CredentialEffects.LatestIsNewest` | backend/app/services/password_reset_service.py:98-110 | the link found is the newest of those asked for, the later row of equally new ones |
| `CredentialService.AccountTables.RequestPasswordReset` | backend/app/services/password_reset_service.py:202-299 | a request issues one link and withdraws the others, or changes nothing |
| `CredentialService.AccountTables.CountActiveAdmins` | backend/app/services/admin_user_service.py:128-135 | the number of active administrators |
| `TextLines.TrimmedLines` | backend/scripts/chunk.py:152-155 | the trimmed lines that are not blank, in order |
| `TextLines.WordsOfKeptLines` | backend/scripts/chunk.py:152-155 | cutting a text into trimmed lines loses and splits no word |
| `TextLines.KeptLinesOfJoin` | backend/scripts/chunk.py:162-166 | cutting a text joined from trimmed lines gives those lines back |
| `ArticleContents.LinesHaveNoBreak` | backend/scripts/chunk.py:152-155 | no line holds a character at which lines break, and none is blank or padded |
| `Chunker.SplitSections` | backend/scripts/chunk.py:146-180 | the buffer loop computes the sections |
| `Chunker.SectionsKeepEveryLine` | backend/scripts/chunk.py:146-180 | every line that is no heading is in exactly one section, in order, under the last heading before it; no section is empty |
| `ChunkSplitters.ChunkBySize` | backend/scripts/chunk.py:473-490 | the window loop terminates and computes the windows |
| `ChunkSplitters.SizedChunksCover` | backend/scripts/chunk.py:473-490 | the first chunk and each later chunk without its overlap are exactly the text, and all but the last are full |
| `ChunkSplitters.SplitKeyPoints` | backend/scripts/chunk.py:452-470 | the buffer loop computes the groups |
| `ChunkSplitters.KeyPointsKeepEveryWord` | backend/scripts/chunk.py:452-470 | the chunks hold every word once and in order, and each ends with the first line that reaches the limit |
| `ChunkSplitters.SplitFaq` | backend/scripts/chunk.py:418-441 | the loop computes the question and answer entries |
| `ChunkSplitters.FaqKeepsLinesIff` | backend/scripts/chunk.py:418-441 | every line is kept exactly once, lines before the first question in its answer, if and only if there is a question |
| `ChunkSplitters.RenderKeepsWords` | backend/scripts/chunk.py:428-441 | the words of a FAQ chunk are those of its question and of its answer lines, each under its label |
| `BusinessCases.SplitEmbeddedCases` | backend/scripts/chunk.py:347-397 | the loop over a case computes its pieces |
| `BusinessCases.EmbeddedConserves` | backend/scripts/chunk.py:347-397 | before short pieces are dropped, the pieces hold every line but the category lines, once and in order |
| `BusinessCases.ScanCases` | backend/scripts/chunk.py:275-318 | the scan computes introduction and cases, dropping title-only cases |
| `BusinessCases.SplitBusinessCases` | backend/scripts/chunk.py:275-340 | introduction and cases, each cut into the cases inside it |
| `BusinessCases.ScanConserves` | backend/scripts/chunk.py:275-318 | every line that is no category is a title, in one case's body or in the introduction, exactly once |
| `ArticleContents.ScanPlaces` | backend/scripts/chunk.py:275-318 | a procedure is cut at its titles: the cases are its titles in order, each with the category that governs it and the lines up to the next title or category, and the introduction is the other lines |
| `ArticleContents.CaseStaysIff` | backend/scripts/chunk.py:266-272 | a case stays if and only if a line of it is a detail or three are no headers; cases keep their order |
| `ArticleContents.IntroIsEmittedIff` | backend/scripts/chunk.py:321-334 | the introduction without titles, categories and details is emitted if and only if it has eight words, and with all of them |
| `ArticleContents.CasesInsideAreCut` | backend/scripts/chunk.py:347-397 | no piece of a case of more than four lines holds another case, every piece starts at a case or a title, and exactly the pieces of four words are kept; a shorter case stays whole |
| `ArticleContents.CutAllKeepsOrder` | backend/scripts/chunk.py:336-340 | the pieces come in the order of their cases |
| `ArticleContents.CaseTextShowsCase` | backend/scripts/chunk.py:296-311 | the chunk of a case has its category, if any, and its title behind their labels and all its lines |
| `ArticleContents.PieceTextShowsPiece` | backend/scripts/chunk.py:347-397 | so has a piece inside a case, the label of a title being added where the text has none |
| `SmartChunker.CutSection` | backend/scripts/chunk.py:579-596 | each kind of section is cut by its splitter |
| `ArticleContents.LineIsPieceIff` | backend/scripts/chunk.py:400-450 | the pieces of a section of rules are the lines worded like rules or of twelve words, those of a section of questions the lines of three words that end in a question mark |
| `ArticleContents.SectionIsCovered` | backend/scripts/chunk.py:418-490 | key points keep every word in groups of 120, frequent questions every line if there is a question, and other sections are covered by windows of 220 words that repeat 35 |
| `SmartChunker.SmartChunkArticle` | backend/scripts/chunk.py:564-605 | the pieces of all sections, without the short ones, numbered across sections |
| `ArticleContents.ChunksShowPieces` | backend/scripts/chunk.py:597-603 | the chunks show exactly the pieces of four words or more, trimmed, with their kind and section, in order |
| `ArticleContents.SectionIsCutIff` | backend/scripts/chunk.py:569-577 | a section is cut if and only if it is neither blank nor one to skip |
| `SmartChunker.ArticleIdsAreDistinctAndRecovered` | backend/scripts/chunk.py:598-603 | the identifiers of an article are distinct and numbered 1, 2, 3, and the loader recovers each exactly for codes with an even number of trailing colons |
| `LexicalScore.LexicalRerankScore` | backend/app/services/retrieval_service.py:552-722 | the accumulated score is the sum of its rewards |
| `LexicalScore.RestBounds` | backend/app/services/retrieval_service.py:552-722 | without the codes the score of n query words lies in [-0.5, 10 n + 4.4] |
| `RankingRules.MatchesIff` | backend/app/services/retrieval_service.py:491-517 | a word is found as it is or, longer than three letters, without its final s or with one |
| `RankingRules.ContainsIff` | backend/app/services/retrieval_service.py:597-625 | a phrase is found exactly where the text has it |
| `RankingRules.WordIsWorth` | backend/app/services/retrieval_service.py:587-595 | a word of the query that is found is worth two points, a generic one 0.35 |
| `RankingRules.PairIsWorth` | backend/app/services/retrieval_service.py:597-625 | two neighbouring words found side by side are worth eight points more, generic ones 0.4 |
| `RankingRules.QueryIsWorth` | backend/app/services/retrieval_service.py:655-672 | the whole query found word by word is worth eight points, one if all its words are generic, beside words, pairs and codes |
| `RankingRules.KindIsWorth` | backend/app/services/retrieval_service.py:675-722 | what each kind and each priority are worth, by whether some word that is not generic is asked and found |
| `LexicalScore.CodesDecide` | backend/app/services/retrieval_service.py:627-654 | for any query and any two chunks, 40 j > 10 n + 4.9 is enough for the chunk with all asked codes to outrank one missing j of them |
| `CodeThreshold.CodesDecideIff` | backend/app/services/retrieval_service.py:552-722 | every chunk with all asked codes outranks every chunk that lacks just these if and only if 40 points for each missing code exceed the most such a chunk and the least any chunk can score otherwise, for every query, with codes that are words of the query or stand between the hyphens of one |
| `CodeThreshold.LeadIsKept` | backend/app/services/retrieval_service.py:552-722 | no chunk that lacks the codes scores more than the most, and none scores less than the least |
| `CodeThreshold.LeadIsReached` | backend/app/services/retrieval_service.py:552-722 | two chunks that reach both |
| `CodeThreshold.OtherCodesDecideIff` | backend/app/services/retrieval_service.py:627-654 | for n specific words and j missing codes that are neither words of the query nor parts of one the condition is 40 j > 10 n + 4.9, so that a single code decides exactly up to three words |
| `CodeThreshold.CodeAmongWordsDecidesIff` | backend/app/services/retrieval_service.py:627-654 | a short code that is an inner word of the query decides exactly up to four words |
| `CodeThreshold.HyphenatedCodeDecidesIff` | backend/app/services/retrieval_service.py:627-654 | a code that ends a hyphenated inner word of the query decides exactly up to five words |
| `Ranking.CodesDecideWithinIff` | backend/app/services/retrieval_service.py:908-949 | in the final order, hits with all codes stay ahead of hits that lack some and are at most a given gap better in similarity if and only if the number of missing codes exceeds the gap and a fortieth of what other words can make up for |
| `Ranking.FilterCurrentVersionHits` | backend/app/services/retrieval_service.py:340-442 | the filter keeps current and unversioned hits, or everything when no current pair is found |
| `Ranking.SupersededSurvivesIff` | backend/app/services/retrieval_service.py:340-442 | a hit that is not current survives exactly when it names no version or no requested document has a completed current version |
| `RankingRules.SelectKeepsOrder` | backend/app/services/retrieval_service.py:421-442 | the filter keeps the order of hits |
| `Ranking.MergeCandidateHits` | backend/app/services/retrieval_service.py:881-905 | the two loops compute the merged dictionary in its order |
| `Ranking.MergeKeepsTheBestOfEach` | backend/app/services/retrieval_service.py:881-905 | each identifier of the two lists comes once, with the larger score, a lexical hit replacing a semantic one only by a strictly larger score |
| `Ranking.MergedKeepsFirstAppearance` | backend/app/services/retrieval_service.py:881-905 | merged hits come in the order in which their identifiers first appear, semantic hits first |
| `Ranking.RerankSemanticHits` | backend/app/services/retrieval_service.py:908-967 | the loops score, sort and restore the hits |
| `Ranking.RankedIsSorted` | backend/app/services/retrieval_service.py:908-967 | reranking permutes the hits, keeps their scores and sorts descending by hybrid score |
| `Ranking.RankedIsStable` | backend/app/services/retrieval_service.py:944-949 | hits of equal hybrid score keep their order |
| `Ranking.RankHits` | backend/app/services/retrieval_service.py:1199-1228 | filter, merge, rerank, select and number |
| `Ranking.ResultIsValid` | backend/app/services/cache_service.py:262-287 | a computed result passes the check for cached results, whatever the input |
| `RankingRules.CachedIsTakenIff` | backend/app/services/cache_service.py:262-287 | a cached list is taken unchanged if and only if it is no longer than asked and every hit has an identifier and a positive rank |
| `Ranking.ResultIsBest` | backend/app/services/retrieval_service.py:1221-1228 | the result has as many hits as there are, up to top_k, with ranks 1..n in descending hybrid score, and nothing outside it has a higher one |
| `Budgets.DeduplicateChunks` | backend/app/services/ollama_service.py:57-71 | the first chunks of distinct identity, up to the limit but at least one |
| `PromptContents.SelectsFirsts` | backend/app/services/ollama_service.py:57-71 | selected are the chunks that are the first of their identity, in order, as many as there are up to the limit but at least one |
| `Budgets.DeduplicationComposes` | backend/app/services/ollama_service.py:57-71 | deduplicating to a and then to b is deduplicating once to the smaller |
| `Budgets.TruncationFits` | backend/app/services/ollama_service.py:74-82 | a truncated text fits and is the text, nothing, or a proper beginning marked as cut |
| `PromptContents.TruncationKeeps` | backend/app/services/ollama_service.py:74-82 | kept is what fits beside the ellipsis, cut at its last space or line break if that lies in the second half, without trailing white space |
| `Budgets.BuildContext` | backend/app/services/ollama_service.py:278-308 | the loop collects the blocks that still fit |
| `Budgets.ContextFits` | backend/app/services/ollama_service.py:278-308 | the context, separators included, never exceeds its budget |
| `PromptContents.ContextIsLongest` | backend/app/services/ollama_service.py:278-308 | the context is whole blocks in order as long as they fit; the next is cut to the room left, or ends the context if that is less than two characters |
| `Budgets.BuildHistoryContext` | backend/app/services/ollama_service.py:311-333 | the loop collects the lines as they still fit, the first that does not fit and those after it possibly cut |
| `PromptContents.HistoryNamesSpeakers` | backend/app/services/ollama_service.py:316-322 | each message that is not blank is one line, in order, that names its speaker |
| `PromptContents.WholeHistoryIsKept` | backend/app/services/ollama_service.py:311-333 | a history within its budget is in the prompt as it is |
| `Budgets.HistoryContextFitsIff` | backend/app/services/ollama_service.py:311-333 | for every history and budget, by the lengths of its lines: the context fits if and only if the uncounted line breaks fit beside whole lines, or at most one whole line fills the budget, or at most two lines in all leave one character, and after a line that is cut the same holds of what is left; with the exact length in the first three cases |
| `Budgets.OverrunGrows` | backend/app/services/ollama_service.py:311-333 | after a message that leaves one character every further message lengthens the context by one, without bound |
| `Budgets.FullHistoryOverruns` | backend/app/services/ollama_service.py:311-333 | two messages that fill the budget exactly overrun it by one |
| `Budgets.BoundedHistory` | backend/app/services/retrieval_logging_service.py:513-527 | the backward loop computes the kept messages |
| `Budgets.HistoryIsMaximalSuffix` | backend/app/services/retrieval_logging_service.py:513-527 | for a positive budget the kept messages are a contiguous newest run within it, only the newest cut, and one more would not fit |
| `PromptContents.HistoryFillsItsBudgets` | backend/app/services/retrieval_logging_service.py:481-527 | a stored history is a run of the newest messages within both budgets, two for each turn, and one message more exceeds one of them |
| `PromptContents.NewestIsCutToItsEnd` | backend/app/services/retrieval_logging_service.py:513-527 | a newest message over the budget is cut to its last characters |
| `Budgets.ZeroBudgetHoldsIff` | backend/app/services/retrieval_logging_service.py:519-522 | with budget 0 the newest message is kept whole, so the budget holds exactly if it is empty |
| `DecisionLookup.MatchField` | backend/app/services/decision_lookup_service.py:456-480 | the dictionary and match loops compute the only match |
| `DecisionLookup.MatchedIff` | backend/app/services/decision_lookup_service.py:456-480 | a field is matched exactly when the question says exactly one candidate text, in whatever order candidates are walked |
| `DecisionTiers.ColumnAre` | backend/app/services/decision_lookup_service.py:583-584 | the candidates of a field are the values its rows hold, but for empty texts and zero |
| `DecisionTiers.ValuesShow` | backend/app/services/decision_lookup_service.py:456-470 | a candidate is compared by its text without surrounding white space, a number by its digits |
| `DecisionLookup.UntornMatch` | backend/app/services/decision_lookup_service.py:456-480 | unless the question says several candidates that show one text, the match does not depend on the order |
| `DecisionLookup.OrderDecidesIff` | backend/app/services/decision_lookup_service.py:456-480 | two walks of one candidate set give different matches if and only if the question says two distinct candidates and all it says show one text |
| `DecisionLookup.NumberAndWordAreTorn` | backend/app/services/decision_lookup_service.py:456-480 | a code stored both as a number and as its digits is such a case |
| `DecisionLookup.ResolveFields` | backend/app/services/decision_lookup_service.py:580-591 | the loop over key fields separates settled and unsettled fields |
| `DecisionLookup.InferFields` | backend/app/services/decision_lookup_service.py:606-612 | unsettled fields take a value only if it is the only one left |
| `DecisionLookup.GenericTableLookup` | backend/app/services/decision_lookup_service.py:570-628 | the lookup answers with key and rows as specified, or declines |
| `DecisionLookup.AnswerIsExact` | backend/app/services/decision_lookup_service.py:570-628 | returned rows are precisely those agreeing with the key, which covers every field in use; each value is said by the question or was the only one left among the rows selected by it |
| `DecisionTiers.SettledIff` | backend/app/services/decision_lookup_service.py:580-591 | a field is settled if and only if some row fills it and the question says exactly one of its texts |
| `DecisionTiers.AnswersIff` | backend/app/services/decision_lookup_service.py:570-628 | a table answers if and only if a field in use is said, the others are each left one value where inference is allowed, and some row agrees with what is said and fills every field in use |
| `DecisionTiers.RowIsFound` | backend/app/services/decision_lookup_service.py:570-628 | every filled row is found, with its key, by a question that says its values and in their columns no others |
| `DecisionTiers.RowsKeepOrder` | backend/app/services/decision_lookup_service.py:614-616 | the rows of an answer come in the order of the table |
| `DecisionLookup.LookupIsOrderFree` | backend/app/services/decision_lookup_service.py:570-628 | reordering rows, key fields or set walks changes neither whether there is an answer nor its key or rows, unless the question says several key values of a column that show one text |
| `DecisionLookup.OrderChangesAnswerIff` | backend/app/services/decision_lookup_service.py:570-628 | the walking order of sets changes the answer if and only if some order gives an answer and in some column the question says several key values that show one text |
| `DecisionLookup.FirstUnambiguousMatch` | backend/app/services/decision_lookup_service.py:631-656 | the loop collects the tables that resolve |
| `DecisionTiers.TierAnswersIff` | backend/app/services/decision_lookup_service.py:631-656 | a tier answers if and only if exactly one of its tables does, and with its answer |
| `DecisionLookup.TierIsOrderFree` | backend/app/services/decision_lookup_service.py:631-656 | the order of a tier's tables changes nothing |
| `DecisionLookup.AddedTableNeverReplaces` | backend/app/services/decision_lookup_service.py:631-656 | adding a table to a tier never replaces one answer by another |
| `DecisionLookup.FindDecisionTableAnswer` | backend/app/services/decision_lookup_service.py:659-696 | tiers are tried in order, a tier in conflict being passed over |
| `DecisionTiers.FirstTierAnswers` | backend/app/services/decision_lookup_service.py:659-696 | eligibility comes first, then the only operational table that answers, inference allowed, then the merged billing answer, then the only billing table and the only glossary that answer without inference; a tier in which none or several answer is passed over |

## Left out

- Unicode: lower-casing is ASCII only, accent folding and normal forms are not modelled, and text is a sequence of Unicode scalar values; lone surrogates appear only as texts that cannot be encoded.
- Hashes, HMACs, random tokens and signatures are taken as injective or fresh; a password hash is the password, and a JWT is its claim.
- Redis expiry is strict (a key lives while now is before its expiry), and outages in the middle of a request, cache flushes and time to live of cache entries are not modelled beyond losing an entry.
- The embedding call inside a search is modelled as an independent call, not nested.
- Vector search, embedding, DOCX parsing and the model's reply are parameters; vectors and scores are exact reals, not floating point.
- SQL and Milvus: a transaction, script, insert or delete is one atomic step; `load` always succeeds, and the in-place update of rows held by another session is not visible.
- VectorStore.InsertRecords: does not model the text fields of a row, only its identifier and the length of its vector.
- VectorStore.StoresAgreeWhenQuietIff: takes ingestions of one code and version one after the other, and none after a commit; KnowledgeBase.TraceIsSeparate derives this for uploads, and OverlappingIngestions.OverlapsAgreeIff says what happens otherwise.
- KnowledgeBase.TraceIsSeparate: takes one document for each article code, an upload having the code of its document, and first ingestions of one code that do not overlap; the repository checks neither in one transaction.
- KnowledgeBase.LibraryAgreesIff: lets a document's activation and the commit of its rows happen independently, which allows more runs than their common transaction.
- CacheService.CacheStore.Read: getting an entry and deleting it when it does not parse are one step, and the statuses of a disabled or unreachable store are left out.
- AnswerCache.AnswerStore.RecordAnswerFeedback: the several store operations of one feedback event are one step.
- ChatStream.ReadStream: takes decoded text, because cutting inside a UTF-8 character is handled by the browser's decoder; what the decoder flushes at the end has no line break.
- ChatStream.DeduplicateSources: numbers are compared and shown as they are written, and an object in a key field shows as "[object Object]".
- ChatServer.StreamEvents: leaves out performance records, the knowledge-gap record and a failing update of the stored message.
- ChatServer.OllamaStream.Next: a cached answer is the reply of one last line without a cache key.
- Credentials: e-mail addresses, names, departments, audit rows and the rehash on sign-in are left out; administrators' rights to call an operation are checked elsewhere.
- CredentialService.AccountTables.ResendInvitation: the delivery that follows the commit is the separate event DoDeliveryFailed.
- Chunker.SplitSections: which line is a heading, a category, a title, a detail or a rule is an arbitrary predicate; the regular expressions are not modelled.
- SmartChunker.SmartChunkArticle: sections are first all cut and then numbered, where the code does both in one loop; metadata of a chunk is left out.
- Ranking.RankHits: the lexical candidate list is an input; its own scoring, limit and vector scores are not modelled beyond the lexical score.
- LexicalScore.LexicalRerankScore: tokenising a text into words is a parameter; QueryCodes reads the codes of a query, with the word characters beyond ASCII as a parameter.
- CodeThreshold.CodesDecideIff: words and tokens of a chunk come from one text, which is stated as: a chunk with a code as a word, or between the hyphens of a word, has the code; this fails only for words that normalisation changes, such as those that lose an accent.
- Budgets.BuildContext: header lines are a given text per chunk.
- DecisionLookup.GenericTableLookup: whether a question says a text is an arbitrary predicate, the wording of an answer and the links between tables are left out, and so are the bespoke GEM and billing lookups, which enter as given answers.
- Analytics, pagination, health checks, migrations, seed and benchmark scripts, HTTP routes, schemas and user-interface components, which have no invariants of their own.
