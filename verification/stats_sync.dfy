/**
 * The statistics processor (`MovieStatsSyncProcessor`): read a movie's
 * counters from the cache, copy the derived average and count to the movie
 * row, upsert the statistics row, and only then ask the index propagation
 * to refresh the movie. The cache is only read, never written.
 */
module StatsSync {
  import opened Wrappers
  import opened JsNumber
  import opened JsonText
  import opened CacheStore
  import opened DurableStore
  import opened RatingKeys
  import opened RatingPropagator
  import RatingIntake

  /** What `getStatsFromCache` returns; `buckets[i]` is the count of `i + 1` stars. */
  datatype CacheStats = CacheStats(averageRating: real, totalRatings: int, buckets: seq<int>, recentRatingsCount: int)

  /** `cache.get(key)`, where each of the eight reads fails on its own: those of keys in `down` fail. */
  function Read(c: Cache, key: string, down: set<string>): Option<JsonValue> {
    Get(c, key, key !in down)
  }

  /** `parseInt(value || '0') || 0` of one counter. */
  function CountAt(c: Cache, key: string, down: set<string>): int {
    CountOf(Read(c, key, down))
  }

  /** `getStatsFromCache`. */
  function StatsFromCache(c: Cache, movieId: string, down: set<string>): (r: CacheStats)
    ensures r.totalRatings == CountAt(c, CountKey(movieId), down)
    ensures RatingIntake.IsAverage(r.averageRating, SumOf(Read(c, SumKey(movieId), down)), r.totalRatings)
    ensures |r.buckets| == 5
    ensures forall i :: 0 <= i < 5 ==> r.buckets[i] == CountAt(c, BucketKey(movieId, i + 1), down)
    ensures r.recentRatingsCount == CountAt(c, RecentKey(movieId), down)
  {
    var sum := SumOf(Read(c, SumKey(movieId), down));
    var total := CountAt(c, CountKey(movieId), down);
    var buckets := seq(5, i requires 0 <= i < 5 => CountAt(c, BucketKey(movieId, i + 1), down));
    CacheStats(RatingIntake.Average(sum, total), total, buckets, CountAt(c, RecentKey(movieId), down))
  }

  /** The counters of one movie hold these integers. */
  predicate CountersAre(c: Cache, movieId: string, sum: int, count: int, buckets: seq<int>, recent: int) {
    && |buckets| == 5
    && CounterAt(c, SumKey(movieId)) == Some(sum)
    && CounterAt(c, CountKey(movieId)) == Some(count)
    && (forall i :: 0 <= i < 5 ==> CounterAt(c, BucketKey(movieId, i + 1)) == Some(buckets[i]))
    && CounterAt(c, RecentKey(movieId)) == Some(recent)
  }

  /** With every read answered, the stats are exactly the integers the counters hold. */
  lemma StatsFromCounters(c: Cache, movieId: string, sum: int, count: int, buckets: seq<int>, recent: int)
    requires CountersAre(c, movieId, sum, count, buckets, recent)
    ensures var r := StatsFromCache(c, movieId, {});
      && r.totalRatings == count
      && RatingIntake.IsAverage(r.averageRating, sum as real, count)
      && r.buckets == buckets
      && r.recentRatingsCount == recent
  {
    ReadCounter(c, SumKey(movieId), true);
    ReadCounter(c, CountKey(movieId), true);
    ReadCounter(c, RecentKey(movieId), true);
    forall i | 0 <= i < 5 ensures StatsFromCache(c, movieId, {}).buckets[i] == buckets[i] {
      ReadCounter(c, BucketKey(movieId, i + 1), true);
    }
  }

  /** A counter that is missing, or whose read fails, counts as 0. */
  lemma MissingCounterReadsZero(c: Cache, key: string, down: set<string>)
    requires key in down || key !in c.data
    ensures CountAt(c, key, down) == 0 && SumOf(Read(c, key, down)) == 0.0
  {
    ReadCounter(c, key, key !in down);
  }

  // ---------------------------------------------------------------------
  // The two table writes
  // ---------------------------------------------------------------------

  datatype SyncFailure = MovieNotFound(movieId: string) | DatabaseError

  /** Whether each of the two database calls answers, and the clock both `new Date()` read. */
  datatype DbEnv = DbEnv(movieUpdateUp: bool, upsertUp: bool, now: int)

  /** `updateMovieTable`: `movie.update` throws when the row does not exist. */
  function UpdateMovieTable(s: Store, movieId: string, averageRating: real, totalRatings: int, db: DbEnv)
    : (r: Result<Store, SyncFailure>)
    ensures r.Success? <==> db.movieUpdateUp && movieId in s.movies
    ensures r.Success? ==> r.value == s.(movies := s.movies[movieId := MovieRow(averageRating, totalRatings, db.now)])
    ensures db.movieUpdateUp && movieId !in s.movies ==> r == Failure(MovieNotFound(movieId))
  {
    if !db.movieUpdateUp then Failure(DatabaseError)
    else if movieId !in s.movies then Failure(MovieNotFound(movieId))
    else Success(s.(movies := s.movies[movieId := MovieRow(averageRating, totalRatings, db.now)]))
  }

  /** The upsert's `create` values. */
  function CreateValues(stats: CacheStats, trendingScore: real, now: int): StatsRow {
    StatsRow(stats.averageRating, stats.totalRatings, stats.buckets, stats.recentRatingsCount, trendingScore, now)
  }

  /** The upsert's `update` values (its extra `updatedAt` is not a column of the model). */
  function UpdateValues(stats: CacheStats, trendingScore: real, now: int): StatsRow {
    StatsRow(stats.averageRating, stats.totalRatings, stats.buckets, stats.recentRatingsCount, trendingScore, now)
  }

  /** `updateMovieStatisticsTable`: `movieStatistics.upsert` keyed by movie id. */
  function UpsertStatistics(s: Store, movieId: string, stats: CacheStats, trendingScore: real, db: DbEnv)
    : (r: Result<Store, SyncFailure>)
    ensures r.Success? <==> db.upsertUp
    ensures r.Success? ==> r.value.ratings == s.ratings && r.value.movies == s.movies
    ensures r.Success? && movieId in s.statistics ==>
      r.value.statistics == s.statistics[movieId := UpdateValues(stats, trendingScore, db.now)]
    ensures r.Success? && movieId !in s.statistics ==>
      r.value.statistics == s.statistics[movieId := CreateValues(stats, trendingScore, db.now)]
  {
    if !db.upsertUp then Failure(DatabaseError)
    else if movieId in s.statistics then Success(s.(statistics := s.statistics[movieId := UpdateValues(stats, trendingScore, db.now)]))
    else Success(s.(statistics := s.statistics[movieId := CreateValues(stats, trendingScore, db.now)]))
  }

  /**
   * Both branches of the upsert write the same stored values: the row a
   * successful upsert leaves does not depend on whether one existed.
   */
  lemma UpsertBranchesAgree(s: Store, t: Store, movieId: string, stats: CacheStats, trendingScore: real, db: DbEnv)
    requires db.upsertUp
    ensures UpsertStatistics(s, movieId, stats, trendingScore, db).value.statistics[movieId]
         == UpsertStatistics(t, movieId, stats, trendingScore, db).value.statistics[movieId]
  {
  }

  // ---------------------------------------------------------------------
  // syncMovieStatsToDatabase
  // ---------------------------------------------------------------------

  /** `calculateTrendingScore(averageRating, totalRatings, recentCount)`, taken as given. */
  type Trending = (real, int, int) -> real

  /**
   * `syncMovieStatsToDatabase`: nothing when the cache counts no ratings;
   * otherwise the movie row, then the statistics row. The store after a
   * failure keeps what was already written.
   */
  function SyncMovieStats(s: Store, c: Cache, movieId: string, down: set<string>, trending: Trending, db: DbEnv)
    : (r: (Store, Option<SyncFailure>))
    ensures r.0.ratings == s.ratings
    ensures r.1.Some? ==> StatsFromCache(c, movieId, down).totalRatings != 0
    ensures r.1.None? && StatsFromCache(c, movieId, down).totalRatings != 0 ==>
      movieId in r.0.movies && movieId in r.0.statistics
  {
    var st := StatsFromCache(c, movieId, down);
    if st.totalRatings == 0 then (s, None)
    else
      var score := trending(st.averageRating, st.totalRatings, st.recentRatingsCount);
      match UpdateMovieTable(s, movieId, st.averageRating, st.totalRatings, db)
      case Failure(e) => (s, Some(e))
      case Success(s1) =>
        match UpsertStatistics(s1, movieId, st, score, db)
        case Failure(e) => (s1, Some(e))
        case Success(s2) => (s2, None)
  }

  /** The stats row a sync writes from the cache stats. */
  function RowFor(st: CacheStats, trending: Trending, now: int): StatsRow {
    CreateValues(st, trending(st.averageRating, st.totalRatings, st.recentRatingsCount), now)
  }

  /** A cache that counts no ratings writes nothing, whatever the trending score would be. */
  lemma ZeroCountWritesNothing(s: Store, c: Cache, movieId: string, down: set<string>, trending: Trending, db: DbEnv)
    requires StatsFromCache(c, movieId, down).totalRatings == 0
    ensures SyncMovieStats(s, c, movieId, down, trending, db) == (s, None)
  {
  }

  /**
   * What a sync does with a non-zero count: on success the movie row holds
   * exactly the cache-derived average and count and the statistics row the
   * cache stats with the trending score; a missing movie fails before any
   * write; rating rows and other movies never change.
   */
  lemma SyncWrites(s: Store, c: Cache, movieId: string, down: set<string>, trending: Trending, db: DbEnv)
    requires StatsFromCache(c, movieId, down).totalRatings != 0
    ensures var st := StatsFromCache(c, movieId, down);
      var r := SyncMovieStats(s, c, movieId, down, trending, db);
      && r.0.ratings == s.ratings
      && (forall k :: k != movieId ==> (k in r.0.movies <==> k in s.movies) && (k in r.0.statistics <==> k in s.statistics))
      && (forall k :: k != movieId && k in s.movies ==> r.0.movies[k] == s.movies[k])
      && (forall k :: k != movieId && k in s.statistics ==> r.0.statistics[k] == s.statistics[k])
      && (r.1.None? <==> db.movieUpdateUp && db.upsertUp && movieId in s.movies)
      && (r.1.None? ==>
            && r.0.movies[movieId] == MovieRow(st.averageRating, st.totalRatings, db.now)
            && movieId in r.0.statistics
            && r.0.statistics[movieId] == RowFor(st, trending, db.now))
      && (db.movieUpdateUp && movieId !in s.movies ==> r == (s, Some(MovieNotFound(movieId))))
  {
  }

  /** With the counters answered, a sync copies the counted ratings and their average to the movie row. */
  lemma SyncCopiesCounters(s: Store, c: Cache, movieId: string, trending: Trending, db: DbEnv,
                           sum: int, count: int, buckets: seq<int>, recent: int)
    requires CountersAre(c, movieId, sum, count, buckets, recent) && count != 0
    requires db.movieUpdateUp && db.upsertUp && movieId in s.movies
    ensures var r := SyncMovieStats(s, c, movieId, {}, trending, db);
      && r.1.None?
      && r.0.movies[movieId].totalRatings == count
      && RatingIntake.IsAverage(r.0.movies[movieId].averageRating, sum as real, count)
      && r.0.statistics[movieId].bucketCounts == buckets
      && r.0.statistics[movieId].recentRatingsCount == recent
  {
    StatsFromCounters(c, movieId, sum, count, buckets, recent);
    SyncWrites(s, c, movieId, {}, trending, db);
  }

  // ---------------------------------------------------------------------
  // The two job handlers
  // ---------------------------------------------------------------------

  /** The database and the index propagation the processor drives. */
  datatype World = World(store: Store, propagator: Service)

  /**
   * `updateMovieStats`: sync, then `triggerRatingSync`; a failed sync is
   * rethrown and triggers nothing.
   */
  function UpdateMovieStats(w: World, c: Cache, movieId: string, down: set<string>, trending: Trending, db: DbEnv)
    : (r: (World, Option<SyncFailure>))
    ensures var synced := SyncMovieStats(w.store, c, movieId, down, trending, db);
      && r.0.store == synced.0
      && r.1 == synced.1
      && r.0.propagator == if synced.1.None? then Schedule(w.propagator, movieId, db.now) else w.propagator
  {
    var (s1, failure) := SyncMovieStats(w.store, c, movieId, down, trending, db);
    if failure.Some? then (World(s1, w.propagator), failure)
    else (World(s1, Schedule(w.propagator, movieId, db.now)), None)
  }

  /** Every sync of a batch, in order; the first failure is the one reported, the rest still run. */
  function SyncEach(s: Store, c: Cache, movieIds: seq<string>, down: set<string>, trending: Trending, db: DbEnv)
    : (r: (Store, Option<SyncFailure>))
    decreases |movieIds|
  {
    if movieIds == [] then (s, None)
    else
      var first := SyncMovieStats(s, c, movieIds[0], down, trending, db);
      var rest := SyncEach(first.0, c, movieIds[1..], down, trending, db);
      (rest.0, if first.1.Some? then first.1 else rest.1)
  }

  /** `triggerRatingSync` for each movie, in order. */
  function TriggerEach(p: Service, movieIds: seq<string>, now: int): (r: Service)
    decreases |movieIds|
  {
    if movieIds == [] then p else TriggerEach(Schedule(p, movieIds[0], now), movieIds[1..], now)
  }

  /**
   * `batchUpdateMovieStats`: every sync of the batch runs before any
   * trigger, and one failure rethrows with no trigger at all.
   */
  function BatchUpdateMovieStats(w: World, c: Cache, movieIds: seq<string>, down: set<string>, trending: Trending, db: DbEnv)
    : (r: (World, Option<SyncFailure>))
    ensures r.0.store == SyncEach(w.store, c, movieIds, down, trending, db).0
    ensures r.1.Some? ==> r.0.propagator == w.propagator
    ensures r.1.None? ==> r.0.propagator == TriggerEach(w.propagator, movieIds, db.now)
  {
    var (s1, failure) := SyncEach(w.store, c, movieIds, down, trending, db);
    if failure.Some? then (World(s1, w.propagator), failure)
    else (World(s1, TriggerEach(w.propagator, movieIds, db.now)), None)
  }

  /** A batch of one movie behaves exactly like the single-movie job. */
  lemma BatchOfOne(w: World, c: Cache, movieId: string, down: set<string>, trending: Trending, db: DbEnv)
    ensures BatchUpdateMovieStats(w, c, [movieId], down, trending, db) == UpdateMovieStats(w, c, movieId, down, trending, db)
  {
    var first := SyncMovieStats(w.store, c, movieId, down, trending, db);
    assert [movieId][1..] == [];
    assert SyncEach(w.store, c, [movieId], down, trending, db) == first;
    assert TriggerEach(w.propagator, [movieId], db.now) == Schedule(w.propagator, movieId, db.now);
  }

  /** A batch reports success only when each of its syncs succeeded, in the store as it then was. */
  lemma {:induction false} BatchSucceedsOnlyIfEachSync(s: Store, c: Cache, movieIds: seq<string>, down: set<string>, trending: Trending, db: DbEnv)
    requires SyncEach(s, c, movieIds, down, trending, db).1.None?
    requires movieIds != []
    ensures SyncMovieStats(s, c, movieIds[0], down, trending, db).1.None?
    ensures SyncEach(s, c, movieIds, down, trending, db)
         == SyncEach(SyncMovieStats(s, c, movieIds[0], down, trending, db).0, c, movieIds[1..], down, trending, db)
    decreases |movieIds|
  {
  }

  /** With the cache unreachable nothing is counted, so no job writes and the single job still triggers. */
  lemma UnreachableCacheWritesNothing(w: World, c: Cache, movieId: string, trending: Trending, db: DbEnv)
    ensures var down := {SumKey(movieId), CountKey(movieId), RecentKey(movieId),
                         BucketKey(movieId, 1), BucketKey(movieId, 2), BucketKey(movieId, 3), BucketKey(movieId, 4), BucketKey(movieId, 5)};
      UpdateMovieStats(w, c, movieId, down, trending, db) == (World(w.store, Schedule(w.propagator, movieId, db.now)), None)
  {
    var down := {SumKey(movieId), CountKey(movieId), RecentKey(movieId),
                 BucketKey(movieId, 1), BucketKey(movieId, 2), BucketKey(movieId, 3), BucketKey(movieId, 4), BucketKey(movieId, 5)};
    MissingCounterReadsZero(c, CountKey(movieId), down);
  }
}
