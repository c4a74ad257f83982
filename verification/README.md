# A verified model of the gallery backend

This project models the parts of the backend whose correctness depends on more than one function: the visual
fingerprint index, the durable metadata jobs, the caches and gates shared by threads, the query compilers, the
incrementally maintained views, cascade rendering, and the signature layers. SQL tables are maps of rows, a block
under a lock is one step, and an SQL predicate is a small syntax tree with an evaluator. Each module stands for one
source file; loops and mutable objects of the source are methods and classes here, proved against functions on values.

- `VisualFingerprints` (with `BitMath`): 64-bit difference hashes in 16-bit bands; what the multi-probe lookup and its cut find and what they miss.
- `MetadataStore`, `MetadataWorker`: the queue, claims, leases, heartbeats, buffers, threads and fenced writes of the metadata worker, as an interleaved state machine.
- `FastPath`: the recency cache with a time to live, and the simulation of a larger cache by a smaller one.
- `MaintenanceGate`: exclusive maintenance against counted producers, for any number of threads.
- `QueryTokens`, `QueryParser`, `Text`, `Like`, `FieldedSearch`: from query text to SQL conditions, and what these conditions mean.
- `WorkflowDiscovery`: typed workflow properties, their rows, and same-node predicates.
- `PromptAliases`, `KeysetPaging`, `Base64Url`: the alias view and cursor paging.
- `Thumbnails`: one decode, several sizes.
- `GenerationSignatures`, `PromptAtoms`, `RelatedRanking`: nested digests, emphasis and selection of prompt atoms, prompt overlap, and the reasons they justify.
- `Prelude`, `Ordering`: optional values, sequences without repetition, orders and the stable sort.
- `IntegrityChecker`, `Video`, `SearchIndexer`, `MetadataParse`: recovery from stale snapshots, poster leases and quota, the index job loop, single-flight parsing.

`dafny verify dfyconfig.toml` checks everything. Nothing is assumed: what is left open (Unicode case folding, the digest,
the tokenizer, the clock, the file system, the other writers) is a parameter of the theorem or a nondeterministic step.

## What does not hold

Some promises of the source are false as the code stands. Each is given with an input and with the exact condition
under which the code keeps it.

- The band lookup is complete up to distance 15, but line 417 of `visual_fingerprints.py` accepts 16 (`MissedAtSixteen`, `MissedExactly`).
- It keeps the first 500 candidates before filtering, so with more than 500 hits accepted ones can be lost (`CutLosesCopies`); it
  returns the scan without the pairs that differ in two bits of every band iff no accepted hit ranks behind the first 500
  (`IndexAgreesWithScanIff`).
- The heartbeat registry of `indexer.py` is keyed by path. A thread that starts or gives back a claim it has lost removes
  the entry of another thread's newer claim of that path, whose lease is then no longer renewed
  (`NewerClaimIsUnregistered`, `RegistryKeptIff`). Fenced writes stay correct.
- Dispatching a waiting file again keeps the more urgent priority, as the comment at line 257 of `metadata_queue.py` says, unless a stored 0,
  which counts as missing, meets 1 or 2 (`UrgentFileFallsBack`, `UrgencyKeptIff`).
- `render_derivatives` promises every spec exactly once, but loses the variant whose cache lookup raises (`RaisingCacheDropsVariant`, `AllDeliveredIff`).
- A quoted text filter made only of commas and white space compiles to an empty SQL group, and a JSON filter without a key to a LIKE whose
  ESCAPE has two characters; both are SQL errors (`RejectedFilters`, `RejectedIff`). Search requests with such a key are refused before,
  at `search.py:271-287`.
- A keyed filter whose key contains a space, a quote, or a field name followed by a colon is not read back (`FieldNameIsNoKey`, `KeyReadsBackIff`).
- Raw workflow paging, called with a limit outside 1..50, can end early (`RawPagesStopShort`, `RawPagesCompleteIff`); the API model admits only 1..50.
- The recipe digest depends on the order of resource rows iff rows of one identity carry different weights
  (`RepeatedIdentityKeepsOrder`, `SignaturesIgnoreResourceOrderIff`).
- Emphasis is taken off by the first and the last character alone, so `(a) (b)` becomes `a) (b` with weight 1.1
  (`NeighboursLoseBrackets`). Balanced brackets stay balanced iff each pair that is taken off belongs together (`BalanceKeptIff`).
- Two abandoned jobs of one derivative can leave job and derivative in different states (`SharedDerivativeDisagrees`), and do so iff the last
  verdict on the derivative is not the job's (`JobAndDerivativeAgreeIff`). The schema allows two such jobs; the code that queues jobs looks
  for a queued or running one first (`derivative_scheduler/scheduling.py:240-256`, `integrity_checker.py:649-668`).

## Model

| member | source | states |
|---|---|---|
| `VisualFingerprints.DhashHorizontal` | backend/visual_fingerprints.py:48-54 | bit 63-i of the hash says whether pixel i is brighter/darker than its right neighbour, for all 64 positions |
| `VisualFingerprints.DhashVertical` | backend/visual_fingerprints.py:57-63 | the same against the pixel below |
| `VisualFingerprints.BandsAreDigits` | backend/visual_fingerprints.py:147-149 | the four bands of a hash are its digits to the base of 65536, highest first |
| `VisualFingerprints.RunKeepsProjection` | backend/visual_fingerprints.py:152-197 | over every run of persist, invalidate and insert steps the band table is exactly the eight-band projection of the fingerprint table |
| `VisualFingerprints.FingerprintStore.PersistFingerprint` | backend/visual_fingerprints.py:152-197 | afterwards the asset has exactly the fingerprint given and its eight bands, or nothing when there is none to store; every other asset's rows are as before |
| `VisualFingerprints.StoredIsLastPersisted` | backend/visual_fingerprints.py:152-259 | over every run a fingerprint is stored for an asset iff it is the last one persisted for it and nothing since replaced, dropped or invalidated it |
| `VisualFingerprints.PersistedCopyIsHit` | backend/visual_fingerprints.py:152-373 | end to end: a copy of the reference persisted for an eligible asset in scope is hit by the probes in all eight bands |
| `VisualFingerprints.FingerprintStore.NotifyDerivativeReady` | backend/visual_fingerprints.py:218-259 | iff the stored fingerprint of an active asset is out of date, it goes with all its bands and with the asset's extraction row, so that the backfill wants the asset again; otherwise nothing changes |
| `VisualFingerprints.ProbeValues` | backend/visual_fingerprints.py:296-301 | a hash is probed with 17 values per band, four bands in order |
| `VisualFingerprints.ProbesDistinct` | backend/visual_fingerprints.py:296-301 | the 17 probes of a band are pairwise different, so no band is counted twice |
| `VisualFingerprints.ProbesCover` | backend/visual_fingerprints.py:296-301 | a 16-bit band value is probed iff it is within Hamming distance 1 |
| `VisualFingerprints.BandHitsExact` | backend/visual_fingerprints.py:336-360 | for every scope, band_hits of an asset is the number of its bands within distance 1 of the reference |
| `BitMath.DistanceIsDifferingBits` | backend/visual_fingerprints.py:413-416 | the bit count of the exclusive or is the number of places in which the two hashes differ |
| `VisualFingerprints.AcceptsIff` | backend/visual_fingerprints.py:413-422 | a candidate is accepted iff its distance is at most 4, or at most 16 with colours that differ by at most 40 in the mean and an aspect distance of at most 0.08 |
| `VisualFingerprints.ChannelChanges` | backend/visual_fingerprints.py:376-377 | the colour distance sums the differences channel by channel: a change in one channel changes it by that much |
| `VisualFingerprints.ProbeDistanceZero` | backend/visual_fingerprints.py:339-359 | probe_distance is 0 iff some band is equal |
| `VisualFingerprints.HitOrderIff` | backend/visual_fingerprints.py:357-360 | hits come in the order: those that share a band, then by the number of near bands, then by asset id |
| `VisualFingerprints.CompleteToFifteen` | backend/visual_fingerprints.py:304-373 | every stored fingerprint within combined distance 15 is hit by some probe |
| `VisualFingerprints.MissedExactly` | backend/visual_fingerprints.py:411-418 | within the accepted distance 16 a pair is missed iff all eight bands differ in exactly two bits, and then its distance is 16 |
| `VisualFingerprints.MissedAtSixteen` | backend/visual_fingerprints.py:411-418 | for every reference there is a fingerprint at distance 16 that line 417 accepts and no probe finds |
| `VisualFingerprints.HitsAreScan` | backend/visual_fingerprints.py:337-373 | before the 500-row cut, the accepted hits are the linear scan minus exactly the pairs with two differing bits in every band |
| `VisualFingerprints.CutByRank` | backend/visual_fingerprints.py:357-360 | sorting by (probe_distance, band_hits DESC, asset_id) and cutting at 500 keeps a hit asset iff fewer than 500 hit assets come before it |
| `VisualFingerprints.ReturnedIff` | backend/visual_fingerprints.py:304-430 | an asset is returned iff it is accepted, is hit, and ranks among the first 500 hits |
| `VisualFingerprints.IndexAgreesWithScanIff` | backend/visual_fingerprints.py:304-430 | the query equals the scan minus the two-bit pairs iff no accepted hit ranks behind the first 500 |
| `VisualFingerprints.FewHitsSuffice` | backend/visual_fingerprints.py:304-430 | with at most 500 hit assets the cut loses nothing |
| `VisualFingerprints.CutLosesCopies` | backend/visual_fingerprints.py:357-360 | more than 500 exact copies of the reference are all accepted by the scan, and at most 500 are returned |
| `MetadataStore.RecoveryIsExact` | backend/metadata_store/metadata_queue.py:977-1036 | one recovery pass changes a row iff it is running without token or without unexpired lease; it then fails at three attempts and is requeued before |
| `MetadataStore.RecoveredIs` | backend/metadata_store/metadata_queue.py:977-1036 | a recovered row loses token, lease and due time and keeps version, attempts, priority and queue time; it is failed iff it has three attempts, else queued |
| `MetadataStore.DispatchIs` | backend/metadata_store/metadata_queue.py:217-345 | what one dispatch makes of the row of its file, for every state, version, lease and priority; all other rows stay |
| `MetadataStore.HeadIsUnique` | backend/metadata_store/metadata_queue.py:612-625 | the rows one claim takes are determined: the queue ordered by (priority, queued_at, path) has one head of each length |
| `MetadataStore.BatchIsSingleClaims` | backend/metadata_store/metadata_queue.py:604-625 | a batch claim takes exactly the rows that repeated single claims would take, in their order |
| `MetadataStore.CutIsHead` | backend/metadata_store/metadata_queue.py:612-625 | sorting the due rows and cutting the list at the limit gives that head |
| `MetadataStore.HeadIsMostUrgent` | backend/metadata_store/metadata_queue.py:604-625 | of the queued rows whose due time has come, a row taken precedes a row left by lower priority number, else by earlier queue time, else by path |
| `MetadataStore.UrgencyKeptIff` | backend/metadata_store/metadata_queue.py:256-264 | dispatching live work again keeps the more urgent of the two priorities iff not 0 meets 1 or 2 |
| `MetadataStore.UrgentFileFallsBack` | backend/metadata_store/metadata_queue.py:256-264 | a queued file of priority 0 dispatched again with priority 2 ends with priority 2 |
| `MetadataWorker.StepEndsClaimIff` | backend/metadata_store/metadata_queue.py:718-1036 | of all steps of the system, exactly these take a claim off its row: a write of the thread that runs it, the release of the thread that buffers it, a dispatch of another version or of a lapsed claim's file, completion elsewhere, a supervisor pass once the lease has lapsed, a restart |
| `MetadataWorker.ClaimEndsIff` | backend/indexer.py:502-734 | over every run: a claim is off its row at the end iff one of exactly these steps took it off |
| `MetadataWorker.LiveClaimEndsOnlyBy` | backend/indexer.py:502-515 | a claim with an unexpired lease is never taken by the supervisor or by a dispatch of the same version |
| `MetadataStore.RecoveryLeavesLiveClaims` | backend/indexer.py:502-515 | after a supervisor pass every running row still has its token and an unexpired lease, untouched |
| `MetadataWorker.RunKeepsGood` | backend/indexer.py:549-734 | in every interleaving of workers, heartbeats, supervisor, dispatch and restarts: memory, rows and write counts stay consistent |
| `MetadataWorker.AtMostOneTerminalWrite` | backend/indexer.py:639-734 | in every run a claim is ended at most once, and its metadata is written only in that same write |
| `MetadataWorker.MetadataIsWrittenUnderTheClaim` | backend/indexer.py:698-720 | metadata changes only at the path of a running job that holds its row under its token and file version, and the step ends that claim |
| `MetadataWorker.LostClaimIsFinal` | backend/indexer.py:639-734 | a claim taken away by recovery, re-dispatch or a terminal write never owns its row again and never writes again, in any continuation |
| `MetadataWorker.FailureIs` | backend/indexer.py:722-734 | under its claim a job that fails goes back to the queue, due after its delay, iff the failure is transient and it has used fewer than three attempts, and is failed otherwise; attempts, priority and version stay, and so do all other rows; without the claim nothing changes |
| `MetadataWorker.NoEarlyFailure` | backend/indexer.py:722-734 | over every run a row is failed with attempts left only by a permanent failure reported under its claim |
| `MetadataWorker.StaleIs` | backend/indexer.py:648-650 | under its claim a job whose file moved on ends stale, with the metadata untouched; without it nothing changes |
| `MetadataWorker.CompletionIs` | backend/indexer.py:698-720 | under its claim a job ends with its outcome and the metadata of its file version; without it nothing changes |
| `MetadataWorker.ClaimIs` | backend/indexer.py:549-575 | a claim takes the head of the buffer; or the head of the queue, each row running with one more attempt, its own token and a lease of 300 seconds, the first job started, the others buffered in order and registered by path |
| `MetadataWorker.ReleaseGivesBack` | backend/metadata_store/metadata_queue.py:718-751 | exactly the rows still held by a job of the buffer are queued again, with one attempt less |
| `MetadataWorker.OtherStepsAre` | backend/indexer.py:502-619 | what time, dispatch, completion elsewhere, renewal, supervisor and restart change, and that they change nothing else |
| `MetadataWorker.EveryClaimHasOnePlace` | backend/indexer.py:549-603 | every claim issued is in one buffer slot, or run by one thread, or given back, and never in two of these |
| `MetadataWorker.RegistryKeptIff` | backend/indexer.py:549-603 | a step keeps every live buffered claim registered for renewal iff it does not pop, by path, the entry of another live claim |
| `MetadataWorker.TakeKeepsRegisteredIff` | backend/indexer.py:556-562 | starting a buffered job unregisters a live claim iff the entry under its path belongs to a newer claim |
| `MetadataWorker.ReleaseKeepsRegisteredIff` | backend/indexer.py:577-592 | the same for a thread that gives its buffer back |
| `MetadataWorker.NewerClaimIsUnregistered` | backend/indexer.py:556-562 | a concrete run from an empty worker that ends with a live buffered claim missing from the registry |
| `MetadataWorker.RenewClaims` | backend/indexer.py:594-619 | one heartbeat renews exactly the claims, running and registered, that still hold their rows, and reports on the running one |
| `MetadataWorker.RecoverRunning` | backend/metadata_store/metadata_queue.py:977-1036 | the loop over the selected rows is the recovery of the whole table, and its two counters are the numbers of selected rows with three attempts and with fewer |
| `MetadataWorker.ReleaseClaims` | backend/metadata_store/metadata_queue.py:718-751 | the loop gives back each claim that still holds its row, with its attempt, and counts exactly these |
| `MetadataWorker.LifecycleWorker.SelectDue` | backend/metadata_store/metadata_queue.py:612-625 | the selected rows are the head of the queue: due, in queue order, none left out that comes before one taken |
| `MetadataWorker.LifecycleWorker.ClaimJob` | backend/indexer.py:549-575 | the job comes from the head of the thread's buffer, else it is the first of a batch from the head of the queue; rows, tokens, leases, buffer and registry afterwards are stated one by one |
| `MetadataWorker.LifecycleWorker.ReleasePendingClaims` | backend/indexer.py:577-592 | the buffer is empty afterwards, and exactly the rows its jobs still held are queued again with one attempt less; nothing is written when the write fails |
| `MetadataWorker.LifecycleWorker.RenewLease` | backend/indexer.py:594-619 | rows change only by the renewals of one heartbeat |
| `MetadataWorker.LifecycleWorker.PersistAndComplete` | backend/indexer.py:698-720 | applied iff the claim still held the row; then the row has the outcome and the metadata the version of the job, and otherwise neither changes |
| `MetadataWorker.LifecycleWorker.HandleFailure` | backend/indexer.py:722-734 | behind the fence a transient failure with fewer than three attempts is queued again, due after its delay, and any other failure ends failed; attempts, priority, version and all other rows stay |
| `MetadataWorker.LifecycleWorker.SuperviseOnce` | backend/indexer.py:502-515 | a supervisor pass replaces dead threads and makes the expired-only recovery, with exact counters; it wakes the workers iff a thread was replaced or a job requeued |
| `MetadataWorker.LifecycleWorker.RestoreWorkers` | backend/indexer.py:517-536 | unless the worker was never started or is stopping, the threads afterwards are the living ones and one new thread for each configured slot without one |
| `MetadataWorker.RestoredSlots` | backend/indexer.py:517-536 | afterwards every thread lives and every configured slot is served by the threads that served it before, or else by exactly one |
| `FastPath.StepKeepsValid` | backend/derivative_fastpath.py:73-128 | every call keeps the size within capacity and keys distinct |
| `FastPath.HitIsLatestPut` | backend/derivative_fastpath.py:73-128 | after every run a hit is the latest undiscarded put of that key and at most the time to live old |
| `FastPath.RunIsByUse` | backend/derivative_fastpath.py:73-128 | over every run the entries are in the order of their last get or put, oldest first |
| `FastPath.EvictionIsLeastRecent` | backend/derivative_fastpath.py:87-116 | a put evicts only from a full cache, and what it evicts was used before everything that stays |
| `FastPath.RecentPutIsHit` | backend/derivative_fastpath.py:73-116 | what was put answers until it expires, unless it is discarded or put again or as many other keys as the capacity are used meanwhile |
| `FastPath.ExpiryIsFinal` | backend/derivative_fastpath.py:73-85 | a hit never extends an entry: once expired for a reading, it is gone for every later one |
| `FastPath.Inclusion` | backend/derivative_fastpath.py:73-128 | for the same calls and clock readings a smaller cache's contents are a subset of a larger one's |
| `FastPath.DerivativeFastPath.Lookup` | backend/derivative_fastpath.py:73-85 | the object's get is the model's, including the move to the recent end and the removal of an expired entry |
| `FastPath.DerivativeFastPath.Remember` | backend/derivative_fastpath.py:87-116 | put replaces, moves to the recent end and evicts from the old end |
| `FastPath.DerivativeFastPath.Forget` | backend/derivative_fastpath.py:118-123 | discard removes a key, or only a matching entry |
| `MaintenanceGate.RunKeepsGood` | backend/catalog_maintenance_gate.py:23-88 | the gate invariant holds after every run of any number of threads |
| `MaintenanceGate.Safety` | backend/catalog_maintenance_gate.py:23-88 | in every run: active maintenance excludes counted producers, the counter is the outstanding counted holds, bypass holds belong to the owner, sleepers hold nothing |
| `MaintenanceGate.ExclusionLasts` | backend/catalog_maintenance_gate.py:23-88 | over every run: from the entry of a thread until it gives its maintenance back, no other thread adds a hold |
| `MaintenanceGate.EntryIsReached` | backend/catalog_maintenance_gate.py:23-53 | on the open gate a thread enters; then a try of another one acquires nothing and a producer of it sleeps |
| `MaintenanceGate.HolderNeverWaits` | backend/catalog_maintenance_gate.py:70-88 | a thread that already holds the gate is never put to sleep by a nested producer |
| `MaintenanceGate.OwnerCanDrain` | backend/catalog_maintenance_gate.py:23-67 | no deadlock: from every reachable state with maintenance active the owner can leave step by step until nobody sleeps |
| `MaintenanceGate.SharedGate.BeginMaintenance` | backend/catalog_maintenance_gate.py:23-33 | entered iff nobody is in maintenance and no producer is counted; then the gate is closed, the thread is its owner and holds it; otherwise nothing changes |
| `MaintenanceGate.SharedGate.TryAcquireGate` | backend/catalog_maintenance_gate.py:41-53 | acquired iff maintenance is inactive or the caller owns it, with the state change of the model |
| `MaintenanceGate.SharedGate.ReleaseGate` | backend/catalog_maintenance_gate.py:56-67 | the latest hold of the thread is returned with the bypass recorded when it was taken |
| `MaintenanceGate.SharedGate.EndProducer` | backend/catalog_maintenance_gate.py:78-88 | a producer returns exactly the hold it took |
| `Like.PrefixPattern` | backend/fielded_search_parser.py:202-203 | LIKE escape(v)% holds iff the text starts with v |
| `Like.ExactPattern` | backend/fielded_search_parser.py:202-203 | LIKE escape(v) holds iff the text is v, up to ASCII case |
| `Like.ContainsPattern` | backend/fielded_search_parser.py:202-203 | LIKE %escape(v)% holds iff v is a substring, for every v |
| `Like.PatternMeaning` | backend/fielded_search_parser.py:206-213 | a trailing star asks for a prefix (its inner stars literal), no star for equality, inner stars for a glob |
| `FieldedSearch.PhraseIsFoldedSubstring` | backend/fielded_search_parser.py:291-299 | consecutive trigrams are a folded substring, both ways |
| `FieldedSearch.SubstringImpliesPhrase` | backend/fielded_search_parser.py:291-299 | whatever LIKE finds, the phrase query of the stripped value finds |
| `FieldedSearch.QuotedReadsBack` | backend/fielded_search_parser.py:280-281 | an FTS string literal reads back as the value, whatever quotes it holds |
| `FieldedSearch.NarrowedLike` | backend/fielded_search_parser.py:500-509 | trigram AND like is like, for every value the narrowing applies to |
| `FieldedSearch.ModelPart` | backend/fielded_search_parser.py:524-570 | id in (trigram union alias) AND (direct OR alias) is direct OR alias, for every row |
| `FieldedSearch.PathPattern` | backend/fielded_search_parser.py:382-431 | a path or raw filter holds iff the value, with its stars, occurs in the column |
| `FieldedSearch.SplitUnquoted` | backend/fielded_search_parser.py:307-340 | the loop returns the stripped, non-empty pieces between unquoted, unescaped delimiters |
| `FieldedSearch.SegmentsRejoin` | backend/fielded_search_parser.py:307-340 | the pieces joined by the delimiter are the value |
| `FieldedSearch.SegmentsAreWhole` | backend/fielded_search_parser.py:307-340 | no piece can be split again |
| `FieldedSearch.SegmentsCut` | backend/fielded_search_parser.py:307-340 | exactly the delimiters outside quotations and not escaped separate two pieces |
| `FieldedSearch.SplitOnIff` | backend/fielded_search_parser.py:493-497 | a quoted list has one splitting at its commas, and this is it |
| `FieldedSearch.LaterParamsChangeNothing` | backend/fielded_search_parser.py:349-358 | parameters added later never change what an earlier condition says |
| `FieldedSearch.ConditionBuilder.NextParam` | backend/fielded_search_parser.py:355-359 | each call hands out a fresh name and keeps every earlier binding |
| `FieldedSearch.ConditionBuilder.AddFilter` | backend/fielded_search_parser.py:362-573 | for every token: an invalid value appends nothing and is reported; otherwise the appended condition holds of exactly the rows for which the field asks: each field name by its own column and comparison |
| `FieldedSearch.PlanAsks` | backend/fielded_search_parser.py:362-573 | for every field name, operator and quoting, the plan of a valid filter selects what that field asks for: substring, list, alternatives, order, number, day, size, path, model, resource or JSON value in its own column |
| `FieldedSearch.InvalidIff` | backend/fielded_search_parser.py:362-573 | a filter is reported as invalid iff its value is no number, date or size where the field or its comparison needs one |
| `FieldedSearch.TextFilterSelects` | backend/fielded_search_parser.py:477-510 | prompt:v selects the rows whose prompt contains v, and so do negative, name, tool, sampler, scheduler, vae, date and generation_time with their own columns |
| `FieldedSearch.NumberFilterSelects` | backend/fielded_search_parser.py:453-516 | each of the ten number fields compares its own column with the number, for each operator |
| `FieldedSearch.AnyNumberIs` | backend/fielded_search_parser.py:453-474 | int() decides first and must fit 64 bits; float() only reads what int() does not |
| `FieldedSearch.DateIs` | backend/fielded_search_parser.py:248 | a date is four, two and two digits between dashes |
| `FieldedSearch.FieldNumberIff` | backend/fielded_search_parser.py:453-474 | an integer field takes exactly the whole numbers of 64 bits, however they are spelled, and other fields every number, with its value |
| `FieldedSearch.SizeReads` | backend/fielded_search_parser.py:413-423 | every spelling of two decimal numbers with an x between them reads as these two numbers |
| `FieldedSearch.SizeIsSpelled` | backend/fielded_search_parser.py:413-423 | a size that is read has such a spelling |
| `FieldedSearch.ResourcePart` | backend/fielded_search_parser.py:434-450 | a resource-hash or LoRA condition holds iff a resource of the image (of kind lora) contains the value in one of its columns |
| `FieldedSearch.NameOrHashPart` | backend/fielded_search_parser.py:400-410 | equality with an equals sign in the value, containment without, of model or model hash |
| `FieldedSearch.WordsAreWords` | backend/fielded_search_parser.py:284-288 | free text is cut into runs of word characters, and has no word iff it has no such character |
| `FieldedSearch.WordsCover` | backend/fielded_search_parser.py:284-288 | the words are the runs of word characters, each once, whole and in order |
| `FieldedSearch.MatchQueryIs` | backend/fielded_search_parser.py:284-288 | the full-text query of several words is each as a literal, joined by AND, and without a word the text itself as one |
| `FieldedSearch.BuildConditions` | backend/fielded_search_parser.py:576-583 | for every free text and token list: the first invalid filter is reported, or the conditions select exactly the rows that hold the free text and for which every filter asks |
| `FieldedSearch.SelectsWhatIsMeant` | backend/fielded_search_parser.py:576-593 | conditions that each say their filter select, joined by AND, what the whole query means |
| `FieldedSearch.RejectedIff` | backend/fielded_search_parser.py:387-516 | SQL rejects the condition of a valid filter iff it is a quoted list of commas and white space only, or a JSON filter without a key |
| `FieldedSearch.RejectedFilters` | backend/fielded_search_parser.py:387-516 | prompt:", " and a param filter with an empty key are such filters |
| `QueryParser.SourceSyntaxIsRegular` | backend/fielded_search_parser.py:14-34 | all field names of the pattern are lower case, so the theorems below apply to it |
| `QueryParser.SearchIsLeftmost` | backend/fielded_search_parser.py:112-116 | the search returns the first place where a field starts, and nothing only if there is none |
| `QueryParser.FieldStartsIff` | backend/fielded_search_parser.py:14-34 | a field starts where no word goes on and one of the names, in any letter case, stands before a colon, with white space around it or not |
| `QueryParser.FieldEndIff` | backend/fielded_search_parser.py:14-34 | and it ends behind the white space after the colon |
| `QueryParser.NormalizeIff` | backend/fielded_search_parser.py:45-58 | which names ask for which field, alias by alias |
| `QueryParser.ComparisonReads` | backend/fielded_search_parser.py:143-147 | each of the four comparisons is taken off the front of a value and the rest is trimmed, except for raw values |
| `QueryParser.KeyedTokenIs` | backend/fielded_search_parser.py:133-144 | the key of a keyed value ends at its first colon and the rest is the value |
| `QueryParser.UnquotedStops` | backend/fielded_search_parser.py:188-199 | an unquoted value ends at the first space, quote or field start, and not before |
| `QueryParser.QuotedReadsBack` | backend/fielded_search_parser.py:172-186 | a value written with its own quoting reads back, and the cursor stops just after the closing quote |
| `QueryParser.ParserState.ReadFieldValue` | backend/fielded_search_parser.py:168-199 | the cursor loops read what the specification reads, and the cursor never passes the end |
| `QueryParser.ParserState.ReadToken` | backend/fielded_search_parser.py:124-158 | operator, key and value of one token, with the cursor after it |
| `QueryParser.ParseFieldedQuery` | backend/fielded_search_parser.py:105-165 | the main loop ends on every input and returns the specified tokens and residual |
| `QueryParser.FieldsAdvance` | backend/fielded_search_parser.py:105-165 | the cursor strictly advances: a query has at most half as many tokens as characters |
| `QueryParser.TypedQueryParsesBack` | backend/fielded_search_parser.py:14-199 | a query of free texts and filters parses back: every filter with its field, value, comparison and key, however its name is spelled, quoted or not; and the free text without the spaces in front of the filters |
| `QueryParser.KeyReadsBackIff` | backend/fielded_search_parser.py:133-144 | for every key and value: a keyed token key:"value" reads back iff no space, quote or field name interrupts the key, a condition on the key alone |
| `QueryParser.FieldNameIsNoKey` | backend/fielded_search_parser.py:133-144 | a key that is a field name is never read: key and value come back empty |
| `WorkflowDiscovery.DecimalParsesBack` | backend/workflow_discovery.py:143-154 | numerals of 64-bit tokens are stored without loss, so equal text means equal numbers |
| `WorkflowDiscovery.TypedIff` | backend/workflow_discovery.py:134-162 | which JSON values a definition takes, type by type, with the limits of text, integers and tokens |
| `WorkflowDiscovery.NormalizedIff` | backend/workflow_discovery.py:164-193 | a node is kept iff it is a dictionary with a key and a type of 1 to 128 characters |
| `WorkflowDiscovery.StoredIs` | backend/workflow_discovery.py:134-162 | each type of value fills its own columns |
| `WorkflowDiscovery.PropertiesAreTyped` | backend/workflow_discovery.py:181-187 | a property is stored iff its definition is known and the input fits it |
| `WorkflowDiscovery.CollectProperties` | backend/workflow_discovery.py:173-187 | the loop with its early exit collects every property |
| `WorkflowDiscovery.SourceRegistryFits` | backend/workflow_discovery.py:36-77 | the registry of the source meets the limits and operator rules the theorems ask for |
| `WorkflowDiscovery.NormalizeDocument` | backend/workflow_discovery.py:196-221 | accepted iff the node limit is not reached before the last item and all properties fit; then the nodes are the normalized items |
| `WorkflowDiscovery.RunRepresents` | backend/workflow_discovery.py:284-339 | over every run of writes the rows of every asset are exactly the document last stored for it |
| `WorkflowDiscovery.CompiledPredicateIsExact` | backend/workflow_discovery.py:373-421 | a stored value satisfies a compiled predicate iff the predicate holds of the value, for all types and operators |
| `WorkflowDiscovery.CompiledGroupIsExact` | backend/workflow_discovery.py:373-426 | the SQL group selects an asset iff one node of its document has the type and satisfies every predicate |
| `WorkflowDiscovery.QueryAnswersTheLastDocument` | backend/workflow_discovery.py:284-426 | the same over every history of persists and invalidations |
| `WorkflowDiscovery.BuildGroupConditions` | backend/workflow_discovery.py:355-426 | groups compile iff every one passes validation |
| `WorkflowDiscovery.ValidPredicateIff` | backend/workflow_discovery.py:355-370 | a predicate is valid iff a definition of the node type allows its operator and takes its value |
| `WorkflowDiscovery.WorkflowStore.PersistProperties` | backend/workflow_discovery.py:284-327 | afterwards the asset's rows are its document and all other assets keep theirs, or nothing changes iff a node key repeats |
| `PromptAliases.ExactIsUnique` | backend/prompt_discovery.py:141-164 | two exact views are the same view: the incremental one is the rebuilt one |
| `PromptAliases.ExactViewShows` | backend/prompt_discovery.py:141-187 | an exact view has the pairs of active assets and no others; each with the number of these assets, what the latest of them shows (unknown times first, then by id) and the latest time |
| `PromptAliases.UntouchedPairKeepsItsRow` | backend/prompt_discovery.py:243-245 | a pair an asset neither had nor gets keeps its aggregate |
| `PromptAliases.Aggregate` | backend/prompt_discovery.py:141-164 | count, newest display (by time, missing last, then id) and latest time over active assets; none iff the count is zero |
| `PromptAliases.PromptDiscoveryStore.PersistPromptDiscovery` | backend/prompt_discovery.py:190-245 | refreshing only old and new pairs keeps the whole view exact |
| `PromptAliases.PromptDiscoveryStore.InvalidatePromptDiscovery` | backend/prompt_discovery.py:248-268 | refreshing only the old pairs keeps the whole view exact |
| `PromptAliases.RunWrites` | backend/prompt_discovery.py:190-268 | after every run of writes the view is the full aggregate of what was written |
| `KeysetPaging.PagesAreComplete` | backend/prompt_discovery.py:384-454 | following cursors yields the sorted result with no row repeated or skipped, and stops |
| `KeysetPaging.CursorsFollowTheirOrder` | backend/prompt_discovery.py:384-406 | each cursor condition is its sort order, and each sort order is strict and total |
| `KeysetPaging.UsagePagesAreComplete` | backend/prompt_discovery.py:384-454 | prompt usage paging is complete for rows by falling count, and for rows by falling time of last use |
| `KeysetPaging.RawPagesCompleteIff` | backend/workflow_raw_search.py:237-308 | for any integer limit, raw paging is complete iff the limit is 1..50, or the result is empty, or the limit is larger and the result has at most 51 rows |
| `KeysetPaging.RawPagesStopShort` | backend/workflow_raw_search.py:237-308 | limit 0 with one row and limit 60 with 52 rows stop short |
| `KeysetPaging.RawSearchPagesAreComplete` | backend/workflow_raw_search.py:250-308 | complete for every limit the API admits |
| `Base64Url.DecodeUndoesEncode` | backend/prompt_discovery.py:33-48 | decoding undoes encoding (RFC 4648, sections 4 and 5) |
| `Base64Url.EncodeIsRfc` | backend/prompt_discovery.py:33-48 | each three bytes are written as one number of four letters of the alphabet, a shorter rest padded (RFC 4648, sections 4 and 5) |
| `Base64Url.PadRestores` | backend/prompt_discovery.py:301-321 | the unpadded form has only alphabet letters and padding restores the rest (RFC 4648, section 3.2) |
| `Base64Url.CursorRoundTrip` | backend/workflow_raw_search.py:170-199 | decode undoes encode after padding is stripped and restored, for every payload |
| `Base64Url.ValueIdRoundTrip` | backend/prompt_discovery.py:33-48 | a 32-byte digest has a 43-letter id that decodes to it |
| `Thumbnails.ContainedIsExact` | backend/thumbnails.py:251-265 | never an upscale: the long edge is exactly min(edge, source), the other within one pixel of exact |
| `Thumbnails.PortraitIsBest` | backend/thumbnails.py:257-262 | the rounded edge gives the closest aspect ratio of all |
| `Thumbnails.LandscapeIsBest` | backend/thumbnails.py:257-264 | for landscapes too: no other height comes closer to the aspect ratio |
| `Thumbnails.DriftStays` | backend/thumbnails.py:251-282 | halving at each step keeps the deviation from the ideal below two pixels |
| `Thumbnails.NextVariantIsGood` | backend/thumbnails.py:376-383 | resizing from whatever the cascade holds gives the exact long edge and a short edge within two pixels of a direct resize |
| `Thumbnails.ConfiguredEdgesHalve` | backend/thumbnails.py:474-478 | 1440, 512, 256 and 128 are such edges |
| `Thumbnails.OrderIsSorted` | backend/thumbnails.py:363 | the pending variants in order: primary first, then from the largest edge down |
| `Thumbnails.Render` | backend/thumbnails.py:372-391 | every pending variant is delivered once, in that order, rendered iff nothing failed, and is a good variant |
| `Thumbnails.RenderDerivatives` | backend/thumbnails.py:318-391 | over all mixes of cached, failing and rendered variants each is delivered once, except the one whose cache lookup raised first; cached ones from the cache, rendered ones in order and in a good size, and nothing is rendered after a failed lookup or without a source |
| `Thumbnails.AllDeliveredIff` | backend/thumbnails.py:340-360 | all variants are delivered iff the first lookup that raises, if any, raises before its key is known |
| `Thumbnails.RaisingCacheDropsVariant` | backend/thumbnails.py:340-360 | with a raising cache between two missing variants, both are delivered and the variant itself never is |
| `GenerationSignatures.SplitPromptAtoms` | backend/generation_signatures.py:97-117 | the loop returns the atoms between separators outside brackets |
| `GenerationSignatures.SplitRejoins` | backend/generation_signatures.py:97-117 | atoms and separators in turn are the prompt: no character is lost |
| `GenerationSignatures.AtomsAreWhole` | backend/generation_signatures.py:97-117 | no atom splits again |
| `GenerationSignatures.DepthIsSurplus` | backend/generation_signatures.py:97-117 | the depth the loop counts is the greatest surplus of opening brackets over any end of the text, for each kind of bracket |
| `GenerationSignatures.CutsAreExact` | backend/generation_signatures.py:97-117 | the cuts are exactly the commas and line ends at which no bracket is open |
| `GenerationSignatures.ResourceInputs` | backend/generation_signatures.py:315-337 | the loop collects the identities and their last recorded weights |
| `GenerationSignatures.RecipeIsLastWeight` | backend/generation_signatures.py:315-337 | a row stands for its hash, and for its name only without one; each identity has the weight of the last row that stands for it |
| `GenerationSignatures.RecipeIgnoresOrderIff` | backend/generation_signatures.py:315-337 | the recipe layer is the same for every order of the rows iff rows of one identity carry the same weight |
| `GenerationSignatures.RepeatedIdentityKeepsOrder` | backend/generation_signatures.py:315-337 | two rows of one identity with different weights: their order changes the recipe layer |
| `GenerationSignatures.InjectiveDigestExists` | backend/generation_signatures.py:195-197 | the hypothesis of the signature theorems can be met: some digest tells all documents apart |
| `GenerationSignatures.LayersExistIff` | backend/generation_signatures.py:340-388 | which digests there are: prompt iff it has an atom, family and recipe iff also a model or a resource is named, exact iff also a seed or a workflow value is recorded |
| `GenerationSignatures.SameModelIff` | backend/generation_signatures.py:352-358 | two sources have the same model iff their hashes agree, and their names when they have no hash |
| `GenerationSignatures.LayersNest` | backend/generation_signatures.py:340-388 | equal exact digests imply equal recipe, family and prompt digests |
| `GenerationSignatures.DigestsMeanEquality` | backend/generation_signatures.py:340-388 | where a digest exists it is equal iff everything its layer stands for is equal |
| `GenerationSignatures.FamilyIgnoresResourceOrder` | backend/generation_signatures.py:315-364 | reordering resources keeps the prompt and family digests |
| `GenerationSignatures.SignaturesIgnoreResourceOrderIff` | backend/generation_signatures.py:315-388 | all four digests survive every reordering iff there is no recipe digest or rows of one identity carry the same weight |
| `PromptAtoms.UnwrapEmphasis` | backend/generation_signatures.py:120-137 | the two loops peel all outer round, then all outer square brackets, and multiply 1.1 and 0.9 for each; an explicit weight comes first; the result is cut off at 0.1 and 2 |
| `PromptAtoms.ExplicitIff` | backend/generation_signatures.py:120-130 | the pattern yields a text and a weight iff the value is this text, a colon and a spelling of this number in round brackets, for texts that may contain colons themselves |
| `PromptAtoms.ExplicitWeight` | backend/generation_signatures.py:120-130 | an explicit weight is what its numeral says if that is from 0.1 to 2, and the nearer of these otherwise |
| `PromptAtoms.FractionDigit` | backend/generation_signatures.py:120-130 | a digit behind the point adds its tenth, hundredth and so on |
| `PromptAtoms.NestingReadsBack` | backend/generation_signatures.py:120-137 | a text without emphasis, put into any number of square and then round brackets, is read back with weight 1.1^p * 0.9^q, cut off |
| `PromptAtoms.BalanceKeptIff` | backend/generation_signatures.py:120-137 | for every value with balanced round brackets, what remains is balanced iff each pair taken off belongs together |
| `PromptAtoms.NeighboursLoseBrackets` | backend/generation_signatures.py:131-133 | (a) (b) loses its first opening and its last closing bracket |
| `PromptAtoms.SelectPromptAtomsForFts` | backend/generation_signatures.py:163-180 | the loop with its replacement rule, the sort and the cut return the selected atoms |
| `PromptAtoms.BestIsFirstHeaviest` | backend/generation_signatures.py:165-169 | the dictionary holds exactly the identities of the prompt, each with the first of its heaviest atoms |
| `PromptAtoms.SelectedIff` | backend/generation_signatures.py:163-180 | the selection ascends in the five-key order, and an atom is in it iff it is the first heaviest of its identity and fewer such atoms than the limit, kept within 1 and 16, go before it |
| `PromptAtoms.SelectedSize` | backend/generation_signatures.py:163-180 | as many atoms as limit and identities allow, no identity twice |
| `PromptAtoms.RepeatsChangeNothing` | backend/generation_signatures.py:163-180 | appending atoms of known identities that are no heavier than those before leaves the selection unchanged |
| `PromptAtoms.CommonComesLast` | backend/generation_signatures.py:170-180 | a boilerplate atom is selected only if every other identity of the prompt is |
| `PromptAtoms.PreferredAreSelected` | backend/generation_signatures.py:170-180 | no atom left out is heavier than a selected one of its kind, nor as heavy and longer, nor earlier among those as heavy and long |
| `PromptAtoms.SelectedInOrder` | backend/generation_signatures.py:170-180 | the selected atoms come in that order, boilerplate last |
| `RelatedRanking.CandidateIds` | backend/related_ranking.py:233-493 | the loops return the specified list: distinct ids, at most 632, at most 600 for the recipe profile |
| `RelatedRanking.UncappedIsComplete` | backend/related_ranking.py:233-493 | below 600 candidates, every id found by any branch is in the list |
| `RelatedRanking.ExtendWith` | backend/related_ranking.py:252-260 | unseen rows are appended until the list is full |
| `RelatedRanking.CapIsReached` | backend/related_ranking.py:233-493 | 632 is reached by a run of the whole collection in which no branch finds more than its 250 rows |
| `RelatedRanking.CollectWeights` | backend/related_ranking.py:509-516 | the loop gives each atom of each polarity its greatest weight, and an entry exactly to the atoms of the two prompts |
| `RelatedRanking.AtomWeightIs` | backend/related_ranking.py:509-516 | boilerplate weighs 15 percent, and the weight grows with the length up to 60 characters |
| `RelatedRanking.PromptWeightIsGreatest` | backend/related_ranking.py:509-516 | the weight of an atom is the greatest it has in the prompt of its polarity |
| `RelatedRanking.PromptWeightsAreOfAtoms` | backend/related_ranking.py:509-516 | weights are positive, and there is one exactly for each atom of a prompt |
| `RelatedRanking.JaccardIsSimilarity` | backend/related_ranking.py:519-526 | the overlap is in [0, 1], symmetric, and 1 iff the two weighted prompts are equal and not empty |
| `RelatedRanking.ScoreIgnoresListing` | backend/related_ranking.py:519-526 | the overlap does not depend on the order in which a set yields its keys |
| `RelatedRanking.EqualPromptsScoreOne` | backend/related_ranking.py:509-577 | equal prompts with an atom score 1 |
| `RelatedRanking.ProximityIsSimilarity` | backend/related_ranking.py:529-547 | settings proximity is in [0, 1], symmetric, and 1 iff some setting is recorded by both and none differently |
| `RelatedRanking.ProximityIsMean` | backend/related_ranking.py:529-547 | the proximity is the mean closeness of the settings recorded by both, with a tolerance of 10 steps, 3 cfg, 1024 pixels and 0.5 denoising |
| `RelatedRanking.SignalsAreExact` | backend/related_ranking.py:550-602 | each of the five signals is reported iff it is true of the two sources: same model hash or else name, a shared LoRA or else resource row, a shared workflow property |
| `RelatedRanking.SignalsAreComplete` | backend/related_ranking.py:604-635 | at the tiers that report signals none that is true is missing |
| `RelatedRanking.CompareIsSymmetric` | backend/related_ranking.py:570-635 | swapping the two assets changes neither tier nor reasons |
| `RelatedRanking.ReasonsAreTrue` | backend/related_ranking.py:570-635 | every reason given at every tier is true of the two sources: equal layers or prompts, a shared uncommon atom with a tenth of the prompt weight, a common model, resource row or workflow property, close settings |
| `RelatedRanking.TierIsStrongest` | backend/related_ranking.py:604-635 | tier 100 iff the exact layers agree, at least 90 iff the recipes do, at least 80 only if the families do, and 70 or less only with a shared uncommon atom |
| `RelatedRanking.TierIff` | backend/related_ranking.py:604-635 | the tier of a pair is the highest of 100, 90, 80, 70, 60 and 40 whose condition holds: equal layers, equal prompts with a signal, a fifth or a tenth of the prompt weight with a signal |
| `RelatedRanking.ReasonsByTier` | backend/related_ranking.py:604-635 | the reasons given at each tier; similar settings are among them iff the tier is 60 and the proximity at least 0.65 |
| `IntegrityChecker.RetriedIff` | backend/integrity_checker.py:733-759 | an abandoned job is retried iff attempts remain, the asset is a live image and neither file nor catalog moved on |
| `IntegrityChecker.VerdictIs` | backend/integrity_checker.py:702-759 | skipped with the first code that applies: no live image, no file, file or catalog moved on; else failed with three attempts, else queued |
| `IntegrityChecker.StaleSnapshotIsSafe` | backend/integrity_checker.py:672-731 | from any stale snapshot a listed job changes iff it is still running under the listed token with an expired lease |
| `IntegrityChecker.CountsAreTransitions` | backend/integrity_checker.py:695-731 | the counters are exactly the transitions made, by verdict |
| `IntegrityChecker.StatusIsLastVerdict` | backend/integrity_checker.py:708-730 | a derivative ends with the verdict on its last abandoned listed job, and keeps its status when there is none |
| `IntegrityChecker.JobAndDerivativeAgreeIff` | backend/integrity_checker.py:708-730 | an abandoned job and its derivative end in the same state iff that last verdict is the job's own |
| `IntegrityChecker.AllAgreeIff` | backend/integrity_checker.py:708-730 | a pass leaves every abandoned job beside its derivative iff abandoned jobs of one derivative get one verdict |
| `IntegrityChecker.SharedDerivativeDisagrees` | backend/integrity_checker.py:708-730 | two abandoned jobs of one derivative, the first out of attempts: a failed job beside a requeued derivative |
| `IntegrityChecker.DerivativeStore.CheckAbandonedJobs` | backend/integrity_checker.py:672-731 | each abandoned job of the listing ends skipped with the code that applies, failed, or queued, its claim cleared, its start cleared iff queued, its end set to the clock iff not; all in the specified pass, each row judged by the clock at its own write |
| `IntegrityChecker.DerivativeStore.ApplyInChunks` | backend/integrity_checker.py:349-368 | with other writers and passing time between the chunks, every row is served once, in order, by one bounded operation on the tables it finds, and the totals are those of the operations |
| `IntegrityChecker.QuietIsOnePass` | backend/integrity_checker.py:349-368 | when nobody else writes in between, the chunks together are one pass |
| `Video.RangeIsExact` | backend/video.py:198-217 | the served bytes are exactly those the range selects, and the answer is 416 iff it selects none (RFC 7233, sections 2.1 and 4.4) |
| `Video.IterFileRange` | backend/video.py:68-78 | the chunks put together are the requested bytes up to the end of a file cut short, nothing if it was cut before the start, each of 1 to chunk_size bytes |
| `Video.RunIsConsistent` | backend/video.py:90-117 | in every run counts are the unreleased leases and the served set is the paths that have one |
| `Video.StepCounts` | backend/video.py:90-117 | taking a lease adds one unreleased lease on its path, giving one back takes one off, and other paths are not affected |
| `Video.ReleaseIsIdempotent` | backend/video.py:113-117 | releasing a lease again changes nothing |
| `Video.OldestIsOrdered` | backend/video.py:143 | the order of eviction has the same files, none behind one that was read later |
| `Video.EvictPosters` | backend/video.py:134-154 | what goes is the shortest run, in that order, of the files that can go; the answer is true iff the rest fits |
| `Video.OldestGoFirst` | backend/video.py:143-154 | no file goes while an older one stays, unless that one is protected or its unlink fails |
| `Video.EvictionIsExact` | backend/video.py:134-154 | whatever order the directory is listed in: nothing is added, what must be kept stays, and no file goes before an older one that could go |
| `Video.PosterCache.AcquireServing` | backend/video.py:90-93 | one more lease on the path |
| `Video.PosterCache.ReleaseLease` | backend/video.py:96-117 | one lease less, or nothing if it was released before |
| `Video.PosterCache.EnforceQuota` | backend/video.py:134-154 | posters under an unreleased lease, in generation, or protected by the caller survive; of the others exactly the shortest least-recently-used run goes; true iff the rest fits |
| `SearchIndexer.BatchIsExact` | backend/metadata_store/search_index_store.py:403-443 | a batch is ascending and beyond the cursor, and up to its last id it has exactly the assets the listing asks for |
| `SearchIndexer.BatchSize` | backend/metadata_store/search_index_store.py:403-443 | a batch has as many assets as the limit, kept within 1 and 200, or all that are left |
| `SearchIndexer.PassedOverIff` | backend/metadata_store/search_index_store.py:403-443 | a listing passes over an asset iff only missing ones are asked for and its row is of today and neither failed nor, for fingerprints, skipped |
| `SearchIndexer.UpsertedIs` | backend/metadata_store/search_index_store.py:446-535 | one recording: the row of the asset has the new status, except that a failure leaves a row that is none; other rows stay |
| `SearchIndexer.BatchCarriesOn` | backend/search_indexer.py:251-356 | a recorded batch carries the pass on: up to its last id exactly the assets are recorded that the rows at the start of the pass ask for |
| `SearchIndexer.MissesNothing` | backend/search_indexer.py:279-297 | an empty batch means that the pass is complete |
| `SearchIndexer.IndexJob.Record` | backend/metadata_store/search_index_store.py:446-535 | recording is fenced by a live claim, and a failure never replaces an earlier good result |
| `SearchIndexer.IndexJob.Finish` | backend/metadata_store/search_index_store.py:562-636 | the terminal transition takes effect once, behind a live claim, or not at all, and neither when the write raises |
| `SearchIndexer.IndexJob.ProcessAsset` | backend/search_indexer.py:302-356 | an asset is recorded once, under the extracted status, or as a failure when its source changed, persisting or recording failed |
| `SearchIndexer.IndexJob.RunOnce` | backend/search_indexer.py:251-369 | the job ends in at most two passes, failed only on a fault and cancelled only on request, with one effective terminal state, a lost claim, or an exception of the failure write; success means the first pass recorded exactly the assets beyond the resume point that it asks for (all of them in a rebuild), and a repair pass exactly those still wanted when it began, each once |
| `MetadataParse.StepKeepsGood` | backend/metadata_parse.py:97-150 | every step keeps: one owner per registered or unresolved future, filed under its key |
| `MetadataParse.AtMostOneParse` | backend/metadata_parse.py:118-131 | in every run at most one thread parses a given file version |
| `MetadataParse.NoLostWaiter` | backend/metadata_parse.py:127-150 | a waiter's future has a result or a producer that will set it |
| `MetadataParse.ResultIsFinal` | backend/metadata_parse.py:127-150 | a result once set never changes, so every waiter gets what the producer got |
| `MetadataParse.CacheIsParsed` | backend/metadata_parse.py:108-147 | over every run a cached value was persisted, or is what a successful parse of that very key gave |
| `MetadataParse.ResultIsParsed` | backend/metadata_parse.py:127-150 | over every run the result of a future is what the parse of its producer came to, value or error |
| `MetadataParse.StepCaches` | backend/metadata_parse.py:108-147 | a successful parse is cached under its key, an eviction removes one key, and no other step drops or changes an entry |
| `MetadataParse.MetadataParser.Enter` | backend/metadata_parse.py:108-125 | the locked lookup answers from cache or database, else joins or starts the one parse |
| `MetadataParse.MetadataParser.LeaveRegistry` | backend/metadata_parse.py:148-150 | a producer takes exactly its own future out of the registry |
| `FastPath.DerivativeFastPath.Reset` | backend/derivative_fastpath.py:125-128 | clear empties the cache |
| `MaintenanceGate.SharedGate.EndMaintenance` | backend/catalog_maintenance_gate.py:34-38 | leaving maintenance reopens the gate and wakes every sleeper |
| `MaintenanceGate.SharedGate.BeginProducer` | backend/catalog_maintenance_gate.py:70-82 | a producer enters, nests, bypasses as the owner, or goes to sleep, exactly as the model |
| `MetadataParse.StartIsGood` | backend/metadata_parse.py:97-150 | the empty state satisfies the invariant, so the theorems about runs apply from the start |
| `MetadataParse.MetadataParser.Store` | backend/metadata_parse.py:131-134 | a successful parse is cached before its future is resolved |
| `MetadataParse.MetadataParser.SetResult` | backend/metadata_parse.py:135-136 | the future gets the parsed value, once |
| `MetadataParse.MetadataParser.SetException` | backend/metadata_parse.py:137-147 | the future gets the error, and nothing is cached |
| `WorkflowDiscovery.WorkflowStore.InvalidateProperties` | backend/workflow_discovery.py:330-339 | drops the asset's rows with their values, and no others |
| `VisualFingerprints.FingerprintStore.DeleteAsset` | backend/visual_fingerprints.py:152-156 | removes the fingerprint and the bands of one asset |
| `VisualFingerprints.FingerprintStore.InsertHash` | backend/visual_fingerprints.py:175-197 | inserts the four bands of one hash |
| `VisualFingerprints.ProbeBand` | backend/visual_fingerprints.py:296-301 | the exact value first, then its sixteen one-bit neighbours |
| `MetadataWorker.Unregister` | backend/indexer.py:584-586 | the loop removes from the registry the paths of the given jobs and no others |
| `MetadataWorker.LifecycleWorker.ClaimBatch` | backend/metadata_store/metadata_queue.py:596-675 | the claim loop issues one fresh token per selected row, in order |
| `FieldedSearch.TextPart` | backend/fielded_search_parser.py:496-510 | a text condition, narrowed or not, holds of exactly the rows whose column contains the value |
| `FieldedSearch.GroupSays` | backend/fielded_search_parser.py:489-570 | joining the values by AND or OR means all of them or any of them |
| `FieldedSearch.ConditionBuilder.Part` | backend/fielded_search_parser.py:362-573 | the condition and parameters of one value, whatever its kind, mean that value |
| `QueryParser.ParserState.ReadQuotedValue` | backend/fielded_search_parser.py:172-186 | the loop reads up to the closing quote, undoing escapes |
| `QueryParser.ParserState.ReadUnquotedValue` | backend/fielded_search_parser.py:188-199 | the loop reads up to the first stop and strips the end |
| `PromptAliases.PromptDiscoveryStore.RefreshModelAlias` | backend/prompt_discovery.py:141-187 | one pair gets its aggregate, or loses its row; other pairs keep theirs |
| `Thumbnails.LookUp` | backend/thumbnails.py:335-354 | cached variants are delivered in index order, missing ones are left pending, and the first failure ends the phase |
| `Thumbnails.DeliverFailure` | backend/thumbnails.py:355-360 | each variant without a key and each pending one gets the failure, once, behind what was delivered before |
| `SearchIndexer.IndexJob.RenewLease` | backend/metadata_store/search_index_store.py:385-400 | a claim still owned has a live lease afterwards |
| `SearchIndexer.IndexJob.ControlState` | backend/metadata_store/search_index_store.py:718-729 | the state is seen only under an exact live claim |
| `SearchIndexer.IndexJob.ProcessBatch` | backend/search_indexer.py:299-356 | unless it is cancelled, loses the claim or breaks off, every asset of the batch and nothing else is recorded in the present pass, in order |

## Left out

- The order in which visual results are shown and the final limit of the request.
- Conversion of hashes between bytes and integers; colour and aspect distances are inputs of the visual query.
- Other writers of `image_metadata` and the asset stamps of completion: only the worker's own metadata writes are tracked, and completions by other paths are one step that leaves a tokenless row.
- A heartbeat is modelled as renewals one claim at a time; its single transaction allows fewer interleavings.
- `int()` and `float()` of a filter value, full-text matching of the word query, JSON path lookup and the text SQLite renders a number as are parameters of the search theorems; their results are arbitrary.
- The fallback in `_append_residual_condition` for an exception while the word query is built: nothing there raises.
- NUL characters in LIKE patterns, and bm25 ranking inside the full-text index.
- Mapping of UI widget positions to property names, JSON decoding of workflow text, and the source size limit.
- A JSON integer too large for a float makes `float(value)` raise in `_typed_value`; integers convert exactly to reals here.
- Extraction of model identities from metadata: a persist step receives the pairs; primary keys make them distinct.
- Changes of the asset table (offline, deleted) between writes: the alias view is exact for a fixed asset table, as its refresh rule assumes.
- Grouping of prompt values into usage rows: paging starts from the grouped, sorted rows.
- Base64 text that is no encoding: the decoder of the source skips foreign characters, `Decode` answers None.
- JSON and SHA-256 inside cursors and signatures: payload bytes are arbitrary, and the signature theorems hold for every digest without collisions; SHA-256 is taken to be one, and a digest is an abstract value (`InjectiveDigestExists`).
- Variants with `no_upscale` off: the scheduler never asks for them, and they would mix enlarged images into the cascade.
- Floating point in aspect ratios, prompt weights and scores: exact rationals and reals.
- Around the unwrapping of an atom: NFKC, the control character filter, joining of white space, case folding, and the limits of 160 characters and 64 atoms. The sorted rows of typed workflow values are an input of the signatures.
- An atom's canonical weight and the canonical numbers of settings stand for their values, and products of weights are exact; the source rounds them to the 28 digits of `Decimal`.
- Resource and compatibility scores and the order of ranked results: they sort what `ReasonsAreTrue` speaks of.
- `RelatedRanking.CandidateIds`: the SQL of the branches is not modelled; each branch is an arbitrary list of rows.
- `_check_derivative_ready_no_file_details`: its updates carry no status guard, so nothing holds of it under interleaved writers.
- Parsing of the Range header text and the If-Range date: the numbers of a single range are the input.
- The explicit unlink after a failed quota check in `_get_or_generate_poster`, which bypasses the lease.
- Index state rows (`search_index_states`) and their counters.
- `SearchIndexer.IndexJob.RunOnce`: the set of assets is fixed during the job and its extraction rows change only by the job; assets added or rows dropped behind the cursor meanwhile are a later job's work.
- Liveness under time: joins, timeouts, backoff delays and starvation of maintenance.
- Thread death in single-flight parsing by an exception that is not an `Exception`, and the byte sizing of its cache.
