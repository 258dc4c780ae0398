# Movie rating engine: the rating write path, in Dafny

This project models the back end of a movie rating service and proves properties of that model. The service stores ratings and serves a searchable catalogue. It is a NestJS application backed by Redis, PostgreSQL through Prisma, Bull queues and OpenSearch.

The model covers the **rating write path**:

- **Intake** (`CreateRatingUseCase.execute`):
  - validate the rating value and the rater's identity;
  - check for a duplicate, first against a `dup:` marker in Redis and then in the database;
  - write the rating to Redis in one pipeline: the rating hash, the marker, an entry on `pending:ratings`, and the sum, count and star-bucket counters;
  - enqueue two background jobs;
  - read the counters back for an optimistic average.
- **Replay into the database** (`BatchWriteProcessor`):
  - the single-rating job;
  - the periodic drain of the first 200 pending entries;
  - the `persisted` flag that stops a rating from being inserted twice;
  - the skip-duplicates insert.
- **Stats derivation** (`MovieStatsSyncProcessor`) from the Redis counters into the movie and statistics tables.
- **Scheduler sweeps** (`MovieStatsSchedulerService`) that batch movie ids into jobs.
- **Debounced index propagation** (`SyncService`): the per-movie timer map, the retry of failed events, the start-up bulk sync.
- **Leaves** of the write path:
  - the value objects `RatingValue` and `SessionIdentifier`;
  - the duplicate query of `PrismaRatingRepository`;
  - the soft-failing command wrappers of `RedisCacheRepository`.

It also models the pure helpers of the read side:

- pagination arithmetic (`PaginationCalculator`);
- the catalogue service's validation, cache keys, paginated results and read-through caching (`MovieService`);
- the search controller's validators, messages and advanced-query assembly;
- the OpenSearch query builder;
- the search-hit transformer.

The stores are immutable datatypes:

- **Redis keyspace**: strings, hashes and lists, with lifetimes.
- **Durable store**: rating rows by id, plus movie and statistics rows.
- **Job log**: the list of enqueued jobs.
- **Timer map**: the propagator's pending timers.

Every operation is a pure function from the state before to the state after, together with its reply or error. The following are parameters:

- generated ids and the clock;
- random jitter;
- whether the database, Redis or the queue answers;
- how much of a pipeline reaches Redis;
- the current year;
- the trending-score formula.

The JavaScript built-ins the code leans on are modelled exactly for the inputs that occur:

- `parseInt` and `parseFloat`;
- `String(n)`;
- `trim`, `split` and `join`;
- `JSON.stringify` and `JSON.parse` of the pending entries.

The module `Pipeline` (`pipeline_scenarios.dfy`) proves properties that span components. For example:

- counters over any run of intakes;
- an intake followed by a drain puts the rating in the table;
- a single write followed by a drain skips the rating's entry.

## Model

| member | source | states |
|---|---|---|
| RatingValues.NewRatingValue | src/modules/ratings/value-objects/rating.value-object.ts:2-14 | construction succeeds iff the value is an integer in 1..5 (NaN and 3.5 fail), and the value read back is the one given |
| RatingValues.HalfStarRejected | src/modules/ratings/value-objects/rating.value-object.ts:7 | 3.5 lies in [1, 5] and is still rejected |
| RatingValues.EqualsIsValueEquality | src/modules/ratings/value-objects/rating.value-object.ts:16-18 | `equals` holds iff the two values are equal; it is reflexive and symmetric |
| SessionIds.NewSessionIdentifier | src/modules/ratings/value-objects/session-identifier.value-object.ts:2-22 | construction fails iff all three identifiers are falsy (the empty string counts as absent); the getters return the arguments unchanged |
| SessionIds.DuplicateSymmetric | src/modules/ratings/value-objects/session-identifier.value-object.ts:24-29 | `isDuplicate` is symmetric, holds iff the session ids or the user ids are equal and non-empty, and a shared IP address alone never makes a duplicate |
| SessionIds.DuplicateReflexiveIffKeyed | src/modules/ratings/value-objects/session-identifier.value-object.ts:24-29 | an identifier duplicates itself iff it has a session id or a user id, so an IP-only identifier does not |
| RatingKeys.CounterKeyInjective | src/modules/ratings/use-cases/create-rating.use-case.ts:115-117 | two counter keys of one movie are equal iff their fields are |
| RatingKeys.KeyKindsDistinct | src/modules/ratings/use-cases/create-rating.use-case.ts:91-117 | rating hashes, markers, the pending list and counters never share a key |
| RatingKeys.BucketFieldDistinct | src/modules/ratings/use-cases/create-rating.use-case.ts:117 | different star values give different bucket counters, and no bucket counter is the sum, count or recent counter |
| RatingIntake.DupKeyInjective | src/modules/ratings/use-cases/create-rating.use-case.ts:183-187 | the marker key determines the movie and the identity text it was built from |
| RatingIntake.SessionChoosesMarker | src/modules/ratings/use-cases/create-rating.use-case.ts:183-187 | the same user under two different non-empty session ids gets two different markers, so the marker misses a resubmission from a new session |
| RatingIntake.UserOrUndefinedChoosesMarker | src/modules/ratings/use-cases/create-rating.use-case.ts:183-187 | without a session id the user id picks the marker, and raters with neither share `dup:<movie>:undefined` |
| RatingIntake.CheckDuplicateRating | src/modules/ratings/use-cases/create-rating.use-case.ts:57-70 | a marker refuses without a database lookup; a database duplicate sets the marker for 3600 s and refuses; otherwise nothing is written |
| RatingIntake.MarkerRefuses | src/modules/ratings/use-cases/create-rating.use-case.ts:58-63 | with the marker present, the rating is refused and cache, store and job log stay as they were |
| RatingIntake.DatabaseDuplicateSetsMarker | src/modules/ratings/use-cases/create-rating.use-case.ts:65-69 | a duplicate found only in the database sets the marker and refuses, and the same submission is then refused by the marker alone |
| RatingIntake.PlanCounters | src/modules/ratings/use-cases/create-rating.use-case.ts:115-117 | after the pipeline, the sum grows by the stars and the count and the star bucket by one |
| RatingIntake.PlanEffects | src/modules/ratings/use-cases/create-rating.use-case.ts:91-113 | after the pipeline, the entry heads the pending list, the hash holds the fields and the marker exists |
| RatingIntake.PlanTouchesOnly | src/modules/ratings/use-cases/create-rating.use-case.ts:91-119 | however many commands run, a key outside the plan keeps its value |
| RatingIntake.CounterKeysDistinct | src/modules/ratings/use-cases/create-rating.use-case.ts:115-117 | the three counters the pipeline increments are pairwise different keys |
| RatingIntake.PlanOfDistinct | src/modules/ratings/use-cases/create-rating.use-case.ts:91-117 | the six keys written for one rating are pairwise different |
| RatingIntake.FastWriteCounters | src/modules/ratings/use-cases/create-rating.use-case.ts:115-119 | delivered in full to counters of the right type, the sum, count and bucket each move by exactly the accepted rating |
| RatingIntake.FastWriteKeepsOtherCounters | src/modules/ratings/use-cases/create-rating.use-case.ts:115-117 | every other counter of the movie, `recent_count` included, is unchanged however much of the pipeline arrives |
| RatingIntake.FastWriteEffects | src/modules/ratings/use-cases/create-rating.use-case.ts:91-113 | the delivered pipeline pushes the entry's JSON text to the head of the pending list, writes the hash fields as text, and sets the marker |
| RatingIntake.FastWriteTouchesOnlyItsKeys | src/modules/ratings/use-cases/create-rating.use-case.ts:86-130 | whatever reaches Redis and whatever it answers, keys outside the six are untouched |
| RatingIntake.WriteDelay | src/modules/ratings/use-cases/create-rating.use-case.ts:134 | the batch-write delay lies in 0..1999 |
| RatingIntake.QueueBackgroundJobs | src/modules/ratings/use-cases/create-rating.use-case.ts:132-155 | the batch-write job comes first, then the stats job; a failed second enqueue keeps the first |
| RatingIntake.EnqueuedJobs | src/modules/ratings/use-cases/create-rating.use-case.ts:132-155 | on success exactly two jobs are appended: `batch-write` (delay 0..1999, 3 attempts, priority 5) and `update-stats` (delay 3000, 2 attempts) |
| RatingIntake.GetEstimatedStats | src/modules/ratings/use-cases/create-rating.use-case.ts:157-170 | the average is sum/count when count > 0 and 0 otherwise; a missing, unreadable or unparsable counter counts as 0 |
| RatingIntake.Average | src/modules/ratings/use-cases/create-rating.use-case.ts:167 | the average times the count gives the sum when count > 0, and is 0 otherwise |
| RatingIntake.BuildResponse | src/modules/ratings/use-cases/create-rating.use-case.ts:172-181 | the response holds the rating's id, movie, value and creation time, and the two stats |
| RatingIntake.Execute | src/modules/ratings/use-cases/create-rating.use-case.ts:24-55 | an invalid value or an empty identity fails with nothing read or written; the database is never written; jobs are only appended, and two are appended on success |
| RatingIntake.Proceed | src/modules/ratings/use-cases/create-rating.use-case.ts:33-46 | once validated, the store is untouched and the job log only grows, by two on success |
| RatingIntake.CacheFailureSwallowed | src/modules/ratings/use-cases/create-rating.use-case.ts:119-129 | an accepted non-duplicate rating succeeds whether or not the pipeline reached Redis or reported errors |
| RatingIntake.ResponseFields | src/modules/ratings/use-cases/create-rating.use-case.ts:41-46 | the response copies the new rating's fields and reports the counters as read back after the write |
| RatingIntake.ReadBackIncludesNewRating | src/modules/ratings/use-cases/create-rating.use-case.ts:115-117 | with the pipeline delivered, the response counts one rating more than before and its sum includes the new stars |
| BatchWriter.Validate | src/modules/ratings/processors/batch-write.processor.ts:120-146 | fails iff id, movie or rating is falsy, or the rating does not parse to a number in [1, 5]; on success the value is that number, the absent optional fields are null, and the timestamp is used when present |
| BatchWriter.ValidateAcceptsHalfStar | src/modules/ratings/processors/batch-write.processor.ts:131-134 | a rating text "3.5" passes with the value 3.5, unlike the intake's value object |
| BatchWriter.ValidateTextRating | src/modules/ratings/processors/batch-write.processor.ts:121-139 | any rating text that parses to a number in [1, 5] passes, when id and movie are non-empty text |
| BatchWriter.Persist | src/modules/ratings/processors/batch-write.processor.ts:148-160 | an unreachable database or an ill-typed value throws; otherwise the table's ids become exactly the old ids plus the batch's ids, existing rows stay, and the first rating of each new id is stored with its movie, stars, session, user, address, agent, its own createdAt and the write time as updatedAt; movies and statistics do not change |
| BatchWriter.PersistSkipsExisting | src/modules/ratings/processors/batch-write.processor.ts:150-153 | re-inserting a rating whose id is present leaves the table as it was |
| BatchWriter.Judge | src/modules/ratings/processors/batch-write.processor.ts:76-86 | unparsable text is discarded; an accepted entry parsed, validated to exactly the rating inserted, and had no `persisted = '1'` flag with a value in [1, 5]; an entry that fails validation is never accepted |
| BatchWriter.Collect | src/modules/ratings/processors/batch-write.processor.ts:74-92 | every examined entry goes on the removal list, and exactly the accepted ones, in order, on the insert list |
| BatchWriter.AcceptedNotPersisted | src/modules/ratings/processors/batch-write.processor.ts:78-85 | every rating put on the insert list had no `persisted = '1'` flag and a value in [1, 5] |
| BatchWriter.Drain | src/modules/ratings/processors/batch-write.processor.ts:66-118 | the table only gains rows: every stored rating keeps its row, and movies and statistics are untouched |
| BatchWriter.WindowIsHead | src/modules/ratings/processors/batch-write.processor.ts:66-67 | the cycle examines at most the first 200 entries, from the head |
| BatchWriter.DrainEmptyIsNoop | src/modules/ratings/processors/batch-write.processor.ts:67-69 | an empty pending list, or an unreachable Redis, leaves cache and table unchanged |
| BatchWriter.DrainInsertFailureKeepsQueue | src/modules/ratings/processors/batch-write.processor.ts:94-108 | when the insert throws, the cache, and with it the pending list, is untouched |
| BatchWriter.DrainInserts | src/modules/ratings/processors/batch-write.processor.ts:94-97 | after a successful insert the table's ids are exactly the old ids plus the accepted ratings' ids, and each accepted rating with a new id is stored as its row |
| BatchWriter.RemoveHeadEntries | src/modules/ratings/processors/batch-write.processor.ts:111-117 | `lrem` with count 1 of the entries at the head of the list, in order, removes exactly that head |
| BatchWriter.MarkAll | src/modules/ratings/processors/batch-write.processor.ts:98-102 | the marking commands leave every marked rating hash with `persisted = '1'` |
| BatchWriter.DrainRemovesWindow | src/modules/ratings/processors/batch-write.processor.ts:94-117 | with the insert done and both pipelines delivered, the examined window is taken off the head and the entries behind it stay in order |
| BatchWriter.DrainMarksInserted | src/modules/ratings/processors/batch-write.processor.ts:98-102 | with the insert done and both pipelines delivered, every inserted rating's hash is flagged `persisted` |
| BatchWriter.ProcessSingleWrite | src/modules/ratings/processors/batch-write.processor.ts:33-54 | a hash without an id fails with nothing written; validation or insert failure leaves the cache alone; success flags the hash |
| BatchWriter.SingleWriteStores | src/modules/ratings/processors/batch-write.processor.ts:43-46 | a successful single write read a hash that validates to a rating with the hash's id; the table gains exactly that id, a new id holds that rating's row, and the hash is flagged when `hset` reaches Redis |
| DurableStore.InsertSkipDuplicates | src/modules/ratings/repositories/prisma-rating.repository.ts:75-78 | an id already in the table or earlier in the batch is skipped; every other row is added; no existing row changes |
| DurableStore.InsertIdempotent | src/modules/ratings/repositories/prisma-rating.repository.ts:75-78 | inserting the same batch twice gives the same table as inserting it once |
| DurableStore.InsertKeepsValid | src/modules/ratings/repositories/prisma-rating.repository.ts:75-78 | every row stays filed under its own id |
| DurableStore.BuildDuplicateQuery | src/modules/ratings/repositories/prisma-rating.repository.ts:24-45 | the query is restricted to the movie; the user disjunct appears iff the user id is truthy; the session disjunct always appears; the or-list is never empty |
| DurableStore.FindDuplicate | src/modules/ratings/repositories/prisma-rating.repository.ts:23-49 | a duplicate found is always a stored rating of the same movie |
| DurableStore.FindDuplicateIsIsDuplicate | src/modules/ratings/repositories/prisma-rating.repository.ts:23-49 | with a non-empty session id, a row of the movie is found iff its identity `isDuplicate`s the caller's |
| DurableStore.FindDuplicateWithoutSession | src/modules/ratings/repositories/prisma-rating.repository.ts:37-39 | without a session id, any earlier rating of the movie counts as a duplicate |
| DurableStore.ToDomain | src/modules/ratings/repositories/prisma-rating.repository.ts:88-100 | every column is copied unchanged |
| DurableStore.ToDomainInjective | src/modules/ratings/repositories/prisma-rating.repository.ts:88-100 | two rows with the same entity are the same row |
| DurableStore.BatchCreate | src/modules/ratings/repositories/prisma-rating.repository.ts:64-86 | skips taken ids, leaves existing rows as they were, stores the first rating of each new id with all its columns and the insert time as both timestamps, and returns exactly the stored rows whose ids were requested |
| CacheStore.ListRemove | src/modules/ratings/repositories/redis-cache-repository.ts:122-129 | LREM takes out min(|count|, occurrences) copies of the value, every copy for a count of 0, and no other item |
| CacheStore.Apply | src/modules/ratings/repositories/redis-cache-repository.ts:134-165 | an error reply leaves the cache as it was, and no key but the command's own changes |
| CacheStore.ApplyKeepsValid | src/modules/ratings/repositories/redis-cache-repository.ts:134-165 | no command leaves an empty hash or list behind |
| CacheStore.ApplySetEx | src/modules/ratings/repositories/redis-cache-repository.ts:148-150 | SETEX replaces what the key held and sets its lifetime |
| CacheStore.ApplyHSetNew | src/modules/ratings/repositories/redis-cache-repository.ts:135-147 | HSET on a missing key creates the hash with those fields |
| CacheStore.ApplyLPush | src/modules/ratings/repositories/redis-cache-repository.ts:151-153 | LPUSH puts the value at the head of a list or a missing key |
| CacheStore.AddAt | src/modules/ratings/repositories/redis-cache-repository.ts:154-159 | INCRBY and INCRBYFLOAT on a counter holding n leave it holding n + amount |
| CacheStore.CounterAtOther | src/modules/ratings/repositories/redis-cache-repository.ts:134-165 | writing one key leaves the counter under every other key as it was |
| CacheStore.Exec | src/modules/ratings/repositories/redis-cache-repository.ts:166-169 | the replies come back iff every command was sent, one per command; otherwise `exec` rejects |
| CacheStore.RunAllAppend | src/modules/ratings/repositories/redis-cache-repository.ts:166-169 | running two batches one after the other is running them together |
| CacheStore.RunAllKeepsValid | src/modules/ratings/repositories/redis-cache-repository.ts:166-169 | pipelines keep the keyspace valid, whether or not `exec` rejects |
| CacheStore.Get | src/modules/ratings/repositories/redis-cache-repository.ts:13-21 | null when Redis is unreachable, the key holds no string, or the text is empty; a value returned is the JSON parse of the stored text |
| CacheStore.ParseValueRoundTrip | src/modules/ratings/repositories/redis-cache-repository.ts:13-30 | a value's JSON text parses back to the value |
| CacheStore.Set | src/modules/ratings/repositories/redis-cache-repository.ts:23-30 | stores the JSON text with the given lifetime, 300 by default, and changes nothing on failure |
| CacheStore.GetAfterSet | src/modules/ratings/repositories/redis-cache-repository.ts:13-30 | what `set` stored, `get` returns |
| CacheStore.Exists | src/modules/ratings/repositories/redis-cache-repository.ts:32-39 | true iff the key is present, false on failure |
| CacheStore.Delete | src/modules/ratings/repositories/redis-cache-repository.ts:41-47 | the key is gone afterwards, and nothing changes on failure |
| CacheStore.Increment | src/modules/ratings/repositories/redis-cache-repository.ts:49-56 | the new value, or 0 when Redis fails or the key holds no integer |
| CacheStore.HSetField | src/modules/ratings/repositories/redis-cache-repository.ts:68-75 | stores a string verbatim and any other value as its JSON text, and changes nothing on failure |
| CacheStore.HGet | src/modules/ratings/repositories/redis-cache-repository.ts:77-84 | the field's text, or null when the field, the hash or Redis is missing |
| CacheStore.HGetAll | src/modules/ratings/repositories/redis-cache-repository.ts:86-93 | the hash's fields, or {} when the key is missing, not a hash, or Redis fails |
| CacheStore.LLen | src/modules/ratings/repositories/redis-cache-repository.ts:95-102 | the list's length, or 0 |
| CacheStore.LRange | src/modules/ratings/repositories/redis-cache-repository.ts:104-111 | [] on failure; for 0 <= start <= stop, the inclusive slice cut at the end of the list |
| CacheStore.ListPush | src/modules/ratings/repositories/redis-cache-repository.ts:113-120 | the new length with the value at the head, or 0 on failure |
| CacheStore.ListRemoveCmd | src/modules/ratings/repositories/redis-cache-repository.ts:122-129 | how many items were removed, or 0 on failure |
| CacheStore.LRemEffect | src/modules/ratings/repositories/redis-cache-repository.ts:122-129 | with a positive count, the list loses as many copies of the value as the count allows, and nothing else |
| CacheStore.ReadCounter | src/modules/ratings/use-cases/create-rating.use-case.ts:158-164 | a counter read through `get` and `parseInt`/`parseFloat` is the integer it holds; missing, ill-typed or unreachable reads as 0 |
| JobLog.QueueNamed | src/modules/ratings/repositories/bull-queue.service.ts:42-51 | `rating-writes` and `rating-stats` resolve; any other name throws |
| JobLog.AddJobWithOptions | src/modules/ratings/repositories/bull-queue.service.ts:15-40 | appends one job with the defaults 3 attempts, priority 0, removeOnComplete 100 and removeOnFail 50, or fails and appends nothing |
| JobLog.ZeroAttemptsTakeDefault | src/modules/ratings/repositories/bull-queue.service.ts:31 | an explicit `attempts: 0` becomes 3, as an absent one does |
| StatsSync.StatsFromCache | src/modules/ratings/processors/movie-stats-sync.processor.ts:91-135 | the count, buckets and recent count are the counters, or 0 when unreadable, and the average is sum/count or 0 |
| StatsSync.StatsFromCounters | src/modules/ratings/processors/movie-stats-sync.processor.ts:110-134 | with every read answered, the stats are exactly the integers the counters hold |
| StatsSync.MissingCounterReadsZero | src/modules/ratings/processors/movie-stats-sync.processor.ts:121-133 | a missing counter, or one whose read fails, counts as 0 |
| StatsSync.UpdateMovieTable | src/modules/ratings/processors/movie-stats-sync.processor.ts:137-149 | throws when the movie row does not exist; otherwise writes the average and the count |
| StatsSync.UpsertStatistics | src/modules/ratings/processors/movie-stats-sync.processor.ts:151-191 | the statistics row of the movie holds the given stats, created or updated |
| StatsSync.UpsertBranchesAgree | src/modules/ratings/processors/movie-stats-sync.processor.ts:162-190 | the create and the update branch store the same stat values |
| StatsSync.ZeroCountWritesNothing | src/modules/ratings/processors/movie-stats-sync.processor.ts:66-69 | a cache counting no ratings leaves the store unchanged, whatever the trending score would be |
| StatsSync.SyncMovieStats | src/modules/ratings/processors/movie-stats-sync.processor.ts:62-89 | rating rows never change; a failure needs a non-zero count; a success with a non-zero count leaves a movie row and a statistics row for the movie |
| StatsSync.SyncWrites | src/modules/ratings/processors/movie-stats-sync.processor.ts:62-89 | with a non-zero count, success leaves the movie row with exactly the cache-derived average and count and the statistics row with every stat |
| StatsSync.SyncCopiesCounters | src/modules/ratings/processors/movie-stats-sync.processor.ts:79-82 | with the counters answered, the movie row gets the counted ratings and their average |
| StatsSync.UpdateMovieStats | src/modules/ratings/processors/movie-stats-sync.processor.ts:28-40 | the sync runs, then the index trigger; a failed sync is rethrown and triggers nothing |
| StatsSync.BatchUpdateMovieStats | src/modules/ratings/processors/movie-stats-sync.processor.ts:43-60 | every sync runs before any trigger, and a failure rethrows with no trigger |
| StatsSync.BatchOfOne | src/modules/ratings/processors/movie-stats-sync.processor.ts:28-60 | a batch of one movie does exactly what the single-movie job does |
| StatsSync.BatchSucceedsOnlyIfEachSync | src/modules/ratings/processors/movie-stats-sync.processor.ts:47-49 | a batch succeeds only when each of its syncs succeeded on the store as it then was |
| StatsSync.UnreachableCacheWritesNothing | src/modules/ratings/processors/movie-stats-sync.processor.ts:62-69 | with Redis unreachable nothing is counted, nothing is written, and the single job still triggers the index |
| StatsScheduler.ChunksPartition | src/modules/ratings/scheduler/movie-stats-scheduler.service.ts:109-115 | the chunks laid end to end give back the input; none is empty; all but the last are full; there are ceil(n / size) of them |
| StatsScheduler.ChunkArray | src/modules/ratings/scheduler/movie-stats-scheduler.service.ts:109-115 | the loop yields exactly those chunks |
| StatsScheduler.ActiveMovieIds | src/modules/ratings/scheduler/movie-stats-scheduler.service.ts:68-87 | the cached `active_movies` list when it is a non-empty list, [] when it is missing, empty or unreadable |
| StatsScheduler.AllMoviesWithRatings | src/modules/ratings/scheduler/movie-stats-scheduler.service.ts:89-107 | the cached `movies_with_ratings` list when non-empty, otherwise the database fallback, which is [] |
| StatsScheduler.SyncActiveMovieStats | src/modules/ratings/scheduler/movie-stats-scheduler.service.ts:19-39 | one `batch-update-stats` job with all active ids and 2 attempts, or none; a failed enqueue is swallowed |
| StatsScheduler.NoActiveMoviesNoJob | src/modules/ratings/scheduler/movie-stats-scheduler.service.ts:19-39 | a missing or empty `active_movies` list queues nothing |
| StatsScheduler.EnqueueFrom | src/modules/ratings/scheduler/movie-stats-scheduler.service.ts:49-65 | the jobs from chunk i on, stopping at the first refused add, without rethrowing |
| StatsScheduler.SyncAllMovieStats | src/modules/ratings/scheduler/movie-stats-scheduler.service.ts:42-66 | the log is only appended to, with one job per chunk of 50 ids up to the first rejected add: min(ceil(n / 50), accepted) jobs |
| StatsScheduler.SyncAllCoversEveryMovie | src/modules/ratings/scheduler/movie-stats-scheduler.service.ts:42-66 | when the queue takes every add, ceil(n / 50) jobs are queued whose id lists laid end to end are all the ids, in order |
| StatsScheduler.MissingListQueuesNothing | src/modules/ratings/scheduler/movie-stats-scheduler.service.ts:91-107 | without ids in the cache, the sweep queues nothing |
| RatingPropagator.AtMostOneUpdate | src/sync/service/sync.service.ts:15 | the service invariant keeps at most one pending index update per movie |
| RatingPropagator.Schedule | src/sync/service/sync.service.ts:91-109 | the movie's old timer is cancelled, one new update is armed for now + 5000, and other movies' entries are unchanged |
| RatingPropagator.ScheduleKeepsValid | src/sync/service/sync.service.ts:91-109 | scheduling keeps the service invariant |
| RatingPropagator.ScheduleLeavesOneUpdate | src/sync/service/sync.service.ts:92-108 | after scheduling, the movie's only pending update is the new one |
| RatingPropagator.ScheduleAllCoalesces | src/sync/service/sync.service.ts:92-106 | k schedules of a movie before any fire leave exactly one pending update, armed by the last |
| RatingPropagator.UpdateRatingInSearch | src/sync/service/sync.service.ts:111-138 | a stored movie's average, count and distribution go to the index; a missing row sends nothing |
| RatingPropagator.Fire | src/sync/service/sync.service.ts:96-106 | a handle not armed changes nothing; a fired handle is gone afterwards unless it is the one the retry re-arms |
| RatingPropagator.FireUpdate | src/sync/service/sync.service.ts:97-105 | firing a pending update on success and on failure, as in `Fire` |
| RatingPropagator.FireForMissingMovie | src/sync/service/sync.service.ts:131-137 | a missing movie row issues no index update, and the update counts as done |
| RatingPropagator.FireKeepsValid | src/sync/service/sync.service.ts:96-108 | firing keeps the service invariant |
| RatingPropagator.Destroy | src/sync/service/sync.service.ts:216-221 | every timer the map holds is cleared, and the map is empty |
| RatingPropagator.DestroyCancelsUpdates | src/sync/service/sync.service.ts:216-221 | after destroy no movie has a pending update |
| RatingPropagator.Run | src/sync/service/sync.service.ts:77-109 | over any sequence of rating events, timers firing and destroys, no movie ever has two pending updates |
| RatingPropagator.HandleMovieEvent | src/sync/service/sync.service.ts:53-75 | with the database and the index reachable the service is left as it was; any failure goes to the retry handler, here with the corrected retry event name |
| RatingPropagator.HandleMovieEventAsWritten | src/sync/service/sync.service.ts:53-75 | the same handler with the retry handler as written: success leaves the service as it was, a failure arms the as-written retry |
| RatingPropagator.FailedMovieEventNeverRetried | src/sync/service/sync.service.ts:164-174 | as written, when a movie event fails, its retry timer fires 30000 ms later and no handler runs: only the timer is consumed |
| RatingPropagator.FailedMovieEventRetried | src/sync/service/sync.service.ts:164-174 | with the corrected event name, the retry timer of a failed movie event runs the movie handler again with the same event |
| RatingPropagator.StepKeepsValid | src/sync/service/sync.service.ts:77-109 | a rating change, a timer firing, an event or a destroy each keep the timers and the debounce map consistent |
| RatingPropagator.Dispatch | src/sync/service/sync.service.ts:53-85 | an event name reaches its listener, and a name nobody listens to changes nothing |
| RatingPropagator.NeedsBulkSyncInIntegers | src/sync/service/sync.service.ts:39 | `documentCount < total * 0.8` iff 5 * documentCount < 4 * total |
| RatingPropagator.OnModuleInit | src/sync/service/sync.service.ts:24-51 | unhealthy search skips everything; otherwise a bulk sync of batch size 20 runs iff the index holds fewer than four fifths of the movies, with unreadable stats counted as 0 |
| RatingPropagator.BulkSyncWindows | src/sync/service/sync.service.ts:176-210 | the pages fetched are ceil(total / size) windows of `size` rows at skip i * size |
| RatingPropagator.BulkSyncCoversEachOffsetOnce | src/sync/service/sync.service.ts:182-189 | every offset below the total lies in exactly one page, and no page starts past the end |
| Pagination.ValidatePagination | src/modules/search/utils/pagination.calculator.ts:10-18 | rejects page < 1 first and then a limit outside [1, 50], with those messages; everything else, NaN included, passes |
| Pagination.ValidIntegersPass | src/modules/search/utils/pagination.calculator.ts:10-18 | integers with page >= 1 and limit in [1, 50] pass |
| Pagination.CalculateOffset | src/modules/search/utils/pagination.calculator.ts:2-4 | the offset plus one page is page * limit, and page >= 1 gives an offset >= 0 |
| Pagination.OffsetIsMultiple | src/modules/search/utils/pagination.calculator.ts:2-4 | page p starts at the (p - 1)-th multiple of the limit |
| Pagination.CalculateTotalPages | src/modules/search/utils/pagination.calculator.ts:6-8 | the least page count whose pages hold the total: pages * limit >= total > (pages - 1) * limit, and 0 rows take 0 pages |
| Pagination.OffsetInsideIffPageExists | src/modules/search/utils/pagination.calculator.ts:2-8 | page p starts before the end of the rows iff p <= the number of pages |
| JsNumber.ParseInt | src/modules/search/controllers/opensearch.controller.ts:208-209 | a number iff a digit follows the optional whitespace and sign, and then an integer; NaN otherwise |
| JsNumber.ParseFloat | src/modules/ratings/processors/batch-write.processor.ts:131 | a number iff a digit, or a point and a digit, follows the optional whitespace and sign; NaN otherwise |
| JsNumber.ParseIntRoundTrip | src/modules/ratings/processors/movie-stats-sync.processor.ts:122 | an integer rendered as text parses back to itself |
| JsNumber.ParseFloatRoundTrip | src/modules/ratings/processors/movie-stats-sync.processor.ts:121 | an integer rendered as text parses back to itself through `parseFloat` |
| JsNumber.ParseFloatKeepsFraction | src/modules/ratings/processors/batch-write.processor.ts:131 | "3.5" parses to 3.5, which is no integer |
| JsNumber.CeilDiv | src/modules/search/utils/pagination.calculator.ts:7 | the least c with total <= c * limit |
| JsNumber.CeilDivUnique | src/modules/search/utils/pagination.calculator.ts:7 | any c bounded like that equals the ceiling |
| JsonText.QuoteRoundTrip | src/modules/ratings/use-cases/create-rating.use-case.ts:104-113 | a string written by `JSON.stringify` reads back as the string |
| JsonText.ReadIntRoundTrip | src/modules/ratings/use-cases/create-rating.use-case.ts:104-113 | an integer written as JSON reads back as the integer |
| JsonText.ParseEncodeObject | src/modules/ratings/processors/batch-write.processor.ts:76 | parsing an object's JSON text gives back the same members |
| JsonText.LookupFinds | src/modules/ratings/processors/batch-write.processor.ts:76-78 | a member is read back when no later member repeats its name |
| PendingCodec.DecodeEncode | src/modules/ratings/use-cases/create-rating.use-case.ts:104-113 | parsing a pending entry and reading its properties gives back every field, and an undefined field reads as undefined |
| Text.Trim | src/modules/search/query-builders/opensearch-query.builder.ts:98-100 | no longer than the input, and a non-empty result has no whitespace at either end |
| Text.TrimEmptyIffBlank | src/modules/movies/services/movies.service.ts:93 | a string trims to "" iff it is blank |
| Text.Split | src/modules/search/transformers/movie-transformer.service.ts:39-40 | there is at least one piece, and no piece holds the separator |
| Text.JoinSplit | src/modules/search/transformers/movie-transformer.service.ts:39-40 | joining the pieces with the separator gives back the input |
| Text.SplitJoin | src/modules/search/transformers/movie-transformer.service.ts:39-40 | splitting a join of separator-free pieces gives back the pieces |
| Text.IntToString | src/modules/ratings/use-cases/create-rating.use-case.ts:94 | a minus sign for negatives, then the digits without a leading zero |
| Text.IntToStringInjective | src/modules/ratings/use-cases/create-rating.use-case.ts:117 | different integers render differently |
| MovieCatalog.ValidatePagination | src/modules/movies/services/movies.service.ts:114-122 | rejects page < 1, then a limit outside [1, 50], as bad requests; everything else passes |
| MovieCatalog.ValidateId | src/modules/movies/services/movies.service.ts:92-96 | an absent id, or one that trims to "", is rejected with "Movie ID cannot be empty"; any other is kept untrimmed |
| MovieCatalog.Assign | src/modules/movies/services/movies.service.ts:35-39 | spreading a property keeps an existing key in place with the new value and puts a new key last |
| MovieCatalog.BuildCacheKey | src/modules/movies/services/movies.service.ts:135-142 | with no defined entry the key is the bare prefix |
| MovieCatalog.CacheKeySplits | src/modules/movies/services/movies.service.ts:135-142 | with colon-free parts, splitting the key at ":" gives the prefix, then each kept key and value in order |
| MovieCatalog.CacheKeyInjective | src/modules/movies/services/movies.service.ts:135-142 | with colon-free parts, equal keys come from the same kept entries |
| MovieCatalog.CacheKeyCollision | src/modules/movies/services/movies.service.ts:135-142 | a search for `q:minRating:r` without a minimum and a search for `q` with minimum r get the same key |
| MovieCatalog.CollidingSearchesShareAPage | src/modules/movies/services/movies.service.ts:35-46 | the page cached for one of those searches is served to the other without a repository query |
| MovieCatalog.TopRatedKeyExample | test/unit/movies.service.spec.ts:237 | the key for TV shows, page 2 of 5, query `breaking` and minimum 4 has the parts the test expects |
| MovieCatalog.MapToResponseDto | src/modules/movies/services/movies.service.ts:98-112 | id, title, description, release date, cover image, type, average rating, rating count and both timestamps are copied, and the cast becomes the actor names in order |
| MovieCatalog.BuildPaginatedResult | src/modules/movies/services/movies.service.ts:162-177 | totalPages is the ceiling of total / limit, hasNext is page < totalPages, and hasPrevious is page > 1 |
| MovieCatalog.HasNextIffRowsRemain | src/modules/movies/services/movies.service.ts:162-177 | there is a next page iff the pages up to this one hold fewer rows than the total |
| MovieCatalog.PaginationExamples | test/unit/movies.service.spec.ts:431-467 | 50 rows two to a page give 25 pages; no rows give 0 pages and no next page |
| MovieCatalog.GetTopRated | src/modules/movies/services/movies.service.ts:27-65 | an invalid page or limit fails with no query and no cache change; a valid one succeeds; at most one repository query; cached movies untouched |
| MovieCatalog.TopRatedHitSkipsRepository | src/modules/movies/services/movies.service.ts:41-46 | a stored page is returned as is, and the repository is not asked |
| MovieCatalog.TopRatedMissQueriesOnce | src/modules/movies/services/movies.service.ts:48-64 | a miss, or a failing cache, queries the repository once and returns the built page |
| MovieCatalog.TopRatedRepeatIsServedFromCache | src/modules/movies/services/movies.service.ts:41-62 | right after a stored miss, the same request is answered from the cache |
| MovieCatalog.GetMovieById | src/modules/movies/services/movies.service.ts:67-90 | an empty id fails with no lookup and no cache change; cached pages are never touched; a failure caches nothing |
| MovieCatalog.MissingMovieIsNotFound | src/modules/movies/services/movies.service.ts:80-83 | a missing movie is NotFound after one lookup, and nothing is cached |
| MovieCatalog.FoundMovieIsCached | src/modules/movies/services/movies.service.ts:85-89 | a found movie is returned mapped and stored under `movie:id:<id>` |
| MovieCatalog.MovieHitSkipsRepository | src/modules/movies/services/movies.service.ts:72-76 | a stored movie is returned without a lookup |
| SearchController.ValidateAndBuildFilters | src/modules/search/controllers/opensearch.controller.ts:207-229 | rejects a parsed page < 1, then a limit outside [1, 50], then an unknown type; NaN pages and limits pass |
| SearchController.EngineAcceptsValidatedFilters | src/modules/search/controllers/opensearch.controller.ts:207-229 | the engine's own check accepts whatever this validator accepted |
| SearchController.PageCheckOfIntegerText | src/modules/search/controllers/opensearch.controller.ts:208-216 | a page written as an integer passes iff it is >= 1, and one that does not parse passes too |
| SearchController.ClampLimit | src/modules/search/controllers/opensearch.controller.ts:232 | the limit lies in [1, 50], and NaN or 0 gives 10 |
| SearchController.ValidateAndBuildTopRatedFilters | src/modules/search/controllers/opensearch.controller.ts:231-249 | the limit is clamped and never rejected; a NaN or negative page is rejected; then an unknown type is rejected |
| SearchController.TopRatedPageOfIntegerText | src/modules/search/controllers/opensearch.controller.ts:237-248 | a page written as an integer passes iff it is >= 0, and 0 is the first page |
| SearchController.TopRatedLimitOfIntegerText | src/modules/search/controllers/opensearch.controller.ts:232 | an unparsable or zero limit becomes 10, and a limit in [1, 50] is kept |
| SearchController.BuildTopRatedPage | src/modules/search/controllers/opensearch.controller.ts:75-87 | hasMore is (page + 1) * limit < total, and totalPages is the ceiling of total / limit |
| SearchController.HasMoreIffNextPageExists | src/modules/search/controllers/opensearch.controller.ts:75-85 | there is more iff the next zero-based page is one of the totalPages pages |
| SearchController.EngineRoute | src/modules/search/engines/opensearch-engine.service.ts:47-52 | a trimmed query of at least two characters goes to the text search, anything else to the top-rated listing |
| SearchController.SuggestionRequest | src/modules/search/controllers/opensearch.controller.ts:167-180 | a missing query, or one whose trimmed length is < 2, is rejected; otherwise the trimmed query is searched with page 1 and limit 5 |
| SearchController.SuggestionsAreTextSearches | src/modules/search/controllers/opensearch.controller.ts:167-180 | an accepted suggestion query always reaches the text search, at offset 0 |
| SearchController.AdvancedParts | src/modules/search/controllers/opensearch.controller.ts:120-128 | one part per truthy criterion |
| SearchController.AdvancedPartsContents | src/modules/search/controllers/opensearch.controller.ts:120-130 | no part is empty, so the joined query has no doubled space; the title leads when present; each rating and year part has its wording |
| SearchController.AdvancedQuery | src/modules/search/controllers/opensearch.controller.ts:120-130 | the combined query is empty exactly when no part is given, and a single part is the query verbatim |
| SearchController.AdvancedQueryEdges | src/modules/search/controllers/opensearch.controller.ts:130-138 | with no criteria the query is empty and is answered by the top-rated route |
| SearchController.ReplaceFirst | src/modules/search/controllers/opensearch.controller.ts:269 | `replace` with a one-character pattern changes only its first occurrence |
| SearchController.BuildTopRatedMessage | src/modules/search/controllers/opensearch.controller.ts:268-271 | the count read back from the message is the total; a `MOVIE` filter says `top movies`, a `TV_SHOW` filter `top tv shows`, and no filter `top movies and TV shows` |
| SearchController.ContentWordsOfTypes | src/modules/search/controllers/opensearch.controller.ts:269 | MOVIE reads `movies` and TV_SHOW reads `tv shows` |
| SearchController.SearchMessage | src/modules/search/controllers/opensearch.controller.ts:251-266 | the count read back from the message is the total; with a query the message ends with the query in double quotes; otherwise with the type, or is `Found <total> movies and TV shows` |
| SearchController.SearchMessageReadsBack | src/modules/search/controllers/opensearch.controller.ts:251-266 | two messages for queries that are equal come from the same total and the same query |
| QueryBuilder.BuildSearchQuery | src/modules/search/query-builders/opensearch-query.builder.ts:8-19 | the clauses under `must`, or `must_not match_all` when there are none, sorted by score, average and count |
| QueryBuilder.BuildTopRatedQuery | src/modules/search/query-builders/opensearch-query.builder.ts:21-36 | a single type match when a type is given, `match_all` otherwise, sorted by average and count |
| QueryBuilder.EmptySearchMatchesNothing | src/modules/search/query-builders/opensearch-query.builder.ts:13-15 | empty criteria without a type match no document |
| QueryBuilder.TopRatedMatches | src/modules/search/query-builders/opensearch-query.builder.ts:24-32 | the untyped query matches every document, and the typed one exactly those of that type |
| QueryBuilder.MustClauses | src/modules/search/query-builders/opensearch-query.builder.ts:38-51 | one clause per criterion given (one per cast name); the type term comes first when a type is given and never appears otherwise |
| QueryBuilder.DateClauses | src/modules/search/query-builders/opensearch-query.builder.ts:67-95 | one range clause per truthy year field, the lower bound `afterYear` first, and `beforeYear + 1` as the exclusive upper bound |
| QueryBuilder.ClauseOrder | src/modules/search/query-builders/opensearch-query.builder.ts:38-51 | clauses come in the order type, minimum rating, maximum rating, dates, text, cast |
| QueryBuilder.RatingClauseIffDefined | src/modules/search/query-builders/opensearch-query.builder.ts:53-65 | a `gte x` clause is present iff the minimum is defined as x, 0 included; likewise `lte` for the maximum |
| QueryBuilder.SameYearBoundsAdmitThatYear | src/modules/search/query-builders/opensearch-query.builder.ts:70-80 | afterYear = beforeYear = y admits exactly the dates of year y |
| QueryBuilder.RelativeYearBounds | src/modules/search/query-builders/opensearch-query.builder.ts:82-94 | olderThanYears n admits releases before year currentYear - n, and newerThanYears n from that year on |
| QueryBuilder.ZeroYearIgnoredZeroRatingKept | src/modules/search/query-builders/opensearch-query.builder.ts:53-70 | a year of 0 adds no bound, while a rating of 0 does |
| QueryBuilder.TextClauseIffNotBlank | src/modules/search/query-builders/opensearch-query.builder.ts:97-117 | a missing or blank text query adds no clause; any other adds exactly one, for that query |
| QueryBuilder.SearchTextOfClause | src/modules/search/query-builders/opensearch-query.builder.ts:100 | the text a clause sends is non-empty, trimmed and free of upper-case ASCII letters |
| QueryBuilder.CastClauses | src/modules/search/query-builders/opensearch-query.builder.ts:119-133 | one clause per name, in order |
| QueryBuilder.CastClausePerName | src/modules/search/query-builders/opensearch-query.builder.ts:119-133 | the cast clauses of a query are exactly one per name, in the order of the names, and none without names |
| HitTransformer.Transform | src/modules/search/transformers/movie-transformer.service.ts:20-34 | fields are copied, the cover URL is undefined, and a falsy average or count reads as 0 while a truthy one is kept |
| HitTransformer.TransformCast | src/modules/search/transformers/movie-transformer.service.ts:36-46 | a falsy cast gives []; otherwise one entry per non-blank token, each with a non-empty, trimmed, space-free name and the role `Actor` |
| HitTransformer.CastRoundTrip | src/modules/search/transformers/movie-transformer.service.ts:39-45 | names that are words, joined with single spaces, come back as the same names in order |
| HitTransformer.TomHanks | src/modules/search/transformers/movie-transformer.service.ts:39-45 | "Tom Hanks" gives the two actors Tom and Hanks |
| Pipeline.CountersAfterIntakes | src/modules/ratings/use-cases/create-rating.use-case.ts:115-117 | over any run of accepted intakes on one movie, delivered in full, the sum grows by the total stars, the count by the number of ratings, each bucket by its ratings, and `recent_count` not at all |
| Pipeline.OneWrite | src/modules/ratings/use-cases/create-rating.use-case.ts:91-119 | one delivered intake pipeline moves its three counters, leaves the movie's other counters, and keeps other ratings' keys fresh |
| Pipeline.EntryValidates | src/modules/ratings/processors/batch-write.processor.ts:120-146 | the entry intake pushed parses and validates to the rating's id, movie, stars and timestamp |
| Pipeline.EntryJudged | src/modules/ratings/processors/batch-write.processor.ts:76-86 | the entry is accepted when its hash is not flagged, and skipped when it is |
| Pipeline.DrainOneAccepted | src/modules/ratings/processors/batch-write.processor.ts:66-118 | a drain over one acceptable entry adds exactly its id to the table, with the rating's row when the id is new |
| Pipeline.DrainOneSkipped | src/modules/ratings/processors/batch-write.processor.ts:78-82 | a drain over one flagged entry leaves the table as it is, and empties the pending list when the `lrem` reaches Redis |
| Pipeline.IntakeThenDrainPersists | src/modules/ratings/processors/batch-write.processor.ts:66-118 | a rating accepted onto an empty pending list, with the pipeline delivered, is in the table after the next drain, whether or not its jobs were enqueued; the table gains exactly its id, and a new id holds the submitted movie and stars with the submission time as createdAt |
| Pipeline.HashValidates | src/modules/ratings/processors/batch-write.processor.ts:37-43 | the hash intake wrote validates, with the rating's fields |
| Pipeline.SingleWriteOfHash | src/modules/ratings/processors/batch-write.processor.ts:33-54 | the single write finds the hash intake wrote, validates it and inserts the rating: the table gains exactly its id, a new id holds its movie, stars and submission time, and the hash is flagged |
| Pipeline.SingleWriteThenDrainSkips | src/modules/ratings/processors/batch-write.processor.ts:76-82 | the single write adds exactly the rating's id (a new id with the submitted movie and stars) and flags its hash; a later drain leaves the table as it is and empties the pending list when its `lrem` reaches Redis |
| RatingPropagator.RetryEventName | src/sync/service/sync.service.ts:169 | as written: the name emitted (`rating.rating_update`, `movie.create`, `movie.update`) has no listener |
| RatingPropagator.RetryAsWrittenIsLost | src/sync/service/sync.service.ts:164-174 | as written, the retry of a failed movie event reaches no listener |
| RatingPropagator.IntendedRetryEventName | src/sync/service/sync.service.ts:53-85 | the intended names (`movie.created`, `movie.updated`, `rating.updated`) each have a listener |
| RatingPropagator.RetryReachesHandler | src/sync/service/sync.service.ts:164-174 | with the intended names, the retry runs the same handler again |
| SearchController.SearchMoviesOffset | src/modules/search/engines/opensearch-engine.service.ts:42-58 | as written: finite exactly when page and limit are; a text search starts page p at the one-based offset of `calculateOffset`; the fallback starts page p >= 1 one page later, at `calculateOffset + limit`, and a negative page at 0 |
| SearchController.UnqueriedPagesSkipOnePage | src/modules/search/engines/opensearch-engine.service.ts:42-58 | as written, every page p >= 1 of a search without a usable query starts at `p * limit`, one page past the intended offset |
| SearchController.UnqueriedFirstPageSkipsRows | src/modules/search/engines/opensearch-engine.service.ts:52-57 | as written, page 1 of a search without a usable query skips its first `limit` rows |
| SearchController.IntendedSearchMoviesOffset | src/modules/search/utils/pagination.calculator.ts:2-4 | the offset meant for both routes of the one-based movie search |
| SearchController.IntendedPagesAreOneBased | src/modules/search/engines/opensearch-engine.service.ts:42-53 | with the intended offset, every route starts page p after the rows of the p - 1 pages before it |

## Left out

- `Math.random`, `Date.now`, `new Date`, `performance.now` and `crypto.randomUUID` are parameters: ids, clock readings and the jitter fraction. Intake uses one clock reading for both `Date.now()` calls and the entity's two timestamps.
- `setTimeout`, `setInterval` and the cron triggers are not modelled as real time. The propagator has a logical clock with due times. The drain and the sweeps are single steps the caller chooses to run.
- Concurrency between intake, drain, single writes and sweeps is not modelled. Each operation is atomic, and properties over interleavings are stated as sequences of steps.
- TTL expiry is a separate `CacheStore.Expire` step the environment may take at any time, not a clock.
- `calculateTrendingScore` (floating point with `Math.sqrt`) is an opaque function parameter. `validateRatingCreation` is a null check that cannot fail on validated values, so it is left out.
- The free-text query parser and its extractors are not part of this model. `SearchCriteria` is an input.
- The search engine client and the index are not part of this model, apart from the pagination and routing of `searchMovies`/`getTopRated` needed by the findings. `processSearchResponse`'s total is taken as given.
- The read-side movies repository and its queries are an oracle: a found or missing movie, a page of movies and a total.
- Job queues are an append-only job log with an `up` flag. Retries, backoff, delays and removal counts are recorded but do not act.
- JavaScript numbers are `NaN | Fin(real)`. Infinity, exponent notation, `-0` and IEEE rounding are not modelled. Counters are unbounded integers, and Redis's 64-bit overflow error is not modelled.
- `JSON.parse` is modelled only for flat objects whose values are strings or integers, in the shape `JSON.stringify` writes. Any other value (null, a boolean, a fraction, an array or a nested object), arbitrary whitespace and exponent notation make the text unparsable in the model. Intake never writes such values, because `JSON.stringify` omits undefined fields.
- `ToLower` covers ASCII letters only; `toLowerCase` of other characters is not modelled.
- `new Date(source.releaseDate)` and the suggestions' `getFullYear` are not modelled. Dates stay text, and the year filters compare calendar years.
- Cache-manager lifetimes in `MovieService` (`CACHE_TTL / 2`, `CACHE_TTL * 2`) are recorded with each stored value but never expire. The catalogue cache is a map from key to stored value and lifetime.
- `invalidateMovieCaches` has an empty body and `getMoviesFromDatabase` always returns []. The model keeps the second and drops the first.
- The repository's standalone `incrbyfloat`, `findByMovieId`, `countByMovieId` and `getAverageRating` are not used by the write path and are not modelled.
- `handleRatingChanged` swallows errors from a scheduling step that cannot fail in the model. `deleteIndex`, `getMovieWithDetails`, the health check and the bulk indexer's counts are oracles.
- StatsScheduler.ActiveMovieIds and StatsScheduler.AllMoviesWithRatings take the result of the cache read as a parameter (None for a missing key or a failed read), not a cache. A cached value that is not a list of ids (the source only tests `x && x.length > 0`) is not modelled.
- RatingPropagator.HandleMovieEvent: the interleaving model (`Dispatch`, `Fire`, `Run`) uses the corrected retry event name, not the one the source emits. The as-written handler is `HandleMovieEventAsWritten`, and `FailedMovieEventNeverRetried` shows its retry never reaches a handler.
- `bulkSync`'s `typeof batchSize === 'string'` branch is not modelled: every caller passes a number.
- Logging, NestJS wiring, HTTP controllers, DTOs and the test setup are not modelled. The rating controller always fills the session id, so intake is modelled for any identity.
- The `Pipeline` properties are stated for the ratings of one movie, and for a pending list that holds only the entry under study when the drain runs.

## Findings

| source | as written | input that shows it | evidently intended | confidence | as-written member | corrected member |
|---|---|---|---|---|---|---|
| src/sync/service/sync.service.ts:169 | the retry of a failed movie event is emitted as `movie.create` or `movie.update`, while the listeners are on `movie.created` and `movie.updated` (lines 53, 65); a rating action becomes `rating.rating_update`, which nobody listens to either | a `movie.created` event whose indexing fails: 30000 ms later `movie.create` is emitted and no handler runs | the retry is emitted under the event name the handler listens on, so the failed sync runs again | high, not executed | RatingPropagator.RetryAsWrittenIsLost | RatingPropagator.RetryReachesHandler |
| src/modules/search/engines/opensearch-engine.service.ts:42-58 | `searchMovies` takes one-based pages (default 1, and the controller rejects page < 1), but without a usable query it falls back to `getTopRated`, whose offset is `page * limit`, a zero-based offset | `GET /search/movies?page=1&limit=10` with no query: the engine is asked `from: 10`, so the first ten movies are never shown | the fallback starts page p at `(p - 1) * limit`, like the text search | medium, not executed | SearchController.UnqueriedFirstPageSkipsRows | SearchController.IntendedPagesAreOneBased |
