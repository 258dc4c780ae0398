/**
 * The statistics scheduler (`MovieStatsSchedulerService`): the two periodic
 * sweeps that queue `batch-update-stats` jobs, the cache lookups with their
 * fallbacks, and `chunkArray`.
 */
module StatsScheduler {
  import opened Wrappers
  import opened JsNumber
  import opened JobLog

  /** The ids one job of the full sweep carries. */
  const SweepBatchSize: nat := 50
  /** The upper bound of the random delay of a full-sweep job. */
  const JitterMs: real := 10000.0
  /** Both sweeps ask for two attempts. */
  const SweepAttempts: int := 2

  // ---------------------------------------------------------------------
  // chunkArray
  // ---------------------------------------------------------------------

  /** The chunks laid end to end. */
  function Flatten<T>(chunks: seq<seq<T>>): seq<T>
    decreases |chunks|
  {
    if chunks == [] then [] else chunks[0] + Flatten(chunks[1..])
  }

  lemma {:induction false} FlattenSnoc<T>(chunks: seq<seq<T>>, c: seq<T>)
    ensures Flatten(chunks + [c]) == Flatten(chunks) + c
    decreases |chunks|
  {
    if chunks == [] {
      assert chunks + [c] == [c];
      assert Flatten([c]) == c + Flatten<T>([]);
    } else {
      assert (chunks + [c])[0] == chunks[0];
      assert (chunks + [c])[1..] == chunks[1..] + [c];
      FlattenSnoc(chunks[1..], c);
    }
  }

  function Min(a: int, b: int): int {
    if a <= b then a else b
  }

  /**
   * The reference definition of `chunkArray(xs, size)`: consecutive slices
   * of `size` elements, the last one possibly shorter.
   */
  function Chunks<T>(xs: seq<T>, size: nat): seq<seq<T>>
    requires size >= 1
    decreases |xs|
  {
    if |xs| == 0 then [] else [xs[..Min(size, |xs|)]] + Chunks(xs[Min(size, |xs|)..], size)
  }

  /**
   * Laid end to end the chunks give back `xs`; none is empty; all but the
   * last are full; and there are `ceil(|xs| / size)` of them.
   */
  lemma {:induction false} ChunksPartition<T>(xs: seq<T>, size: nat)
    requires size >= 1
    ensures var r := Chunks(xs, size);
      && Flatten(r) == xs
      && (forall i :: 0 <= i < |r| ==> 1 <= |r[i]| <= size)
      && (forall i :: 0 <= i < |r| - 1 ==> |r[i]| == size)
      && |r| == CeilDiv(|xs|, size)
    decreases |xs|
  {
    if |xs| > 0 {
      var k := Min(size, |xs|);
      var rest := Chunks(xs[k..], size);
      var r := Chunks(xs, size);
      ChunksPartition(xs[k..], size);
      assert r[0] == xs[..k] && r[1..] == rest;
      assert xs[..k] + xs[k..] == xs;
      ChunkCount(|xs|, size, k, |rest|);
      forall i | 1 <= i < |r| ensures r[i] == rest[i - 1] { }
    }
  }

  /** One more chunk of `k` elements accounts for the remaining `n - k`. */
  lemma ChunkCount(n: int, size: int, k: int, c: int)
    requires size >= 1 && n >= 1 && k == Min(size, n)
    requires c == CeilDiv(n - k, size)
    ensures c + 1 == CeilDiv(n, size)
  {
    if k == size {
      CeilDivUnique(n, size, c + 1);
    } else {
      assert n - k == 0 && c == 0;
      CeilDivUnique(n, size, 1);
    }
  }

  /**
   * `chunkArray`: its `for` loop, stepping `i` by `size`. The size is at
   * least 1; with 0 that loop never ends.
   */
  method ChunkArray<T>(xs: seq<T>, size: nat) returns (chunks: seq<seq<T>>)
    requires size >= 1
    ensures chunks == Chunks(xs, size)
  {
    chunks := [];
    var i := 0;
    while i < |xs|
      invariant 0 <= i <= |xs|
      invariant chunks + Chunks(xs[i..], size) == Chunks(xs, size)
      decreases |xs| - i
    {
      var end := Min(i + size, |xs|);
      ChunksStep(xs, i, size);
      chunks := chunks + [xs[i..end]];
      i := end;
    }
    assert xs[i..] == [];
    assert chunks + [] == chunks;
  }

  /** The chunks from offset `i` start with `xs[i..i+size]` and continue at `i + size`. */
  lemma ChunksStep<T>(xs: seq<T>, i: int, size: nat)
    requires size >= 1 && 0 <= i < |xs|
    ensures Chunks(xs[i..], size) == [xs[i..Min(i + size, |xs|)]] + Chunks(xs[Min(i + size, |xs|)..], size)
  {
    var ys := xs[i..];
    var k := Min(size, |ys|);
    assert ys[..k] == xs[i..Min(i + size, |xs|)];
    assert ys[k..] == xs[Min(i + size, |xs|)..];
  }

  // ---------------------------------------------------------------------
  // The id lists and their fallbacks
  // ---------------------------------------------------------------------

  /**
   * `getActiveMovieIds`: the cached `active_movies` list when it is a
   * non-empty array; [] otherwise. `cached` is what `get` returned (None for
   * a missing key or a failed read).
   */
  function ActiveMovieIds(cached: Option<seq<string>>): (ids: seq<string>)
    ensures cached.Some? && |cached.value| > 0 ==> ids == cached.value
    ensures cached.None? || |cached.value| == 0 ==> ids == []
  {
    if cached.Some? && |cached.value| > 0 then cached.value else []
  }

  /** `getMoviesFromDatabase`, which returns no ids. */
  function MoviesFromDatabase(): seq<string> {
    []
  }

  /** `getAllMoviesWithRatings`: the cached `movies_with_ratings` list, else the database fallback. */
  function AllMoviesWithRatings(cached: Option<seq<string>>): (ids: seq<string>)
    ensures cached.Some? && |cached.value| > 0 ==> ids == cached.value
    ensures cached.None? || |cached.value| == 0 ==> ids == MoviesFromDatabase()
  {
    if cached.Some? && |cached.value| > 0 then cached.value else MoviesFromDatabase()
  }

  // ---------------------------------------------------------------------
  // The sweeps
  // ---------------------------------------------------------------------

  /** `statsQueue.add('batch-update-stats', { movieIds }, options)` as the job it logs. */
  function BatchJob(movieIds: seq<string>, delay: Option<real>): Job {
    Job(RatingStats, "batch-update-stats", MovieBatch(movieIds), delay, Some(SweepAttempts), None, None, None, BackoffDelayMs)
  }

  /**
   * `syncActiveMovieStats`: one job for all active movies, or none. `up`
   * says whether the queue accepts it; a rejection is logged and dropped.
   */
  function SyncActiveMovieStats(log: seq<Job>, cached: Option<seq<string>>, up: bool): (r: seq<Job>)
    ensures var ids := ActiveMovieIds(cached);
      r == if |ids| > 0 && up then log + [BatchJob(ids, None)] else log
  {
    var ids := ActiveMovieIds(cached);
    if |ids| > 0 && up then log + [BatchJob(ids, None)] else log
  }

  /** A missing or empty `active_movies` list queues nothing. */
  lemma NoActiveMoviesNoJob(log: seq<Job>, cached: Option<seq<string>>, up: bool)
    requires cached.None? || cached.value == []
    ensures SyncActiveMovieStats(log, cached, up) == log
  {
  }

  /**
   * The jobs of the full sweep from chunk `i` on; the queue accepts the
   * first `accepted` adds of the sweep, and the first rejection ends the
   * loop. `random(i)` is the `Math.random()` draw of chunk `i`.
   */
  function EnqueueFrom(log: seq<Job>, chunks: seq<seq<string>>, i: nat, accepted: nat, random: nat -> real): (r: seq<Job>)
    requires i <= |chunks|
    ensures |r| == |log| + Min(|chunks|, accepted) - Min(i, accepted)
    ensures r[..|log|] == log
    ensures forall j :: i <= j < Min(|chunks|, accepted) ==> r[|log| + j - i] == BatchJob(chunks[j], Some(random(j) * JitterMs))
    decreases |chunks| - i
  {
    if i == |chunks| || i >= accepted then log
    else
      var r := EnqueueFrom(log + [BatchJob(chunks[i], Some(random(i) * JitterMs))], chunks, i + 1, accepted, random);
      assert (log + [BatchJob(chunks[i], Some(random(i) * JitterMs))])[..|log|] == log;
      assert r[..|log|] == r[..|log| + 1][..|log|];
      r
  }

  /**
   * `syncAllMovieStats`: one job per chunk of 50 ids, each with a random
   * delay below 10000; a rejected add ends the sweep without rethrowing.
   */
  function SyncAllMovieStats(log: seq<Job>, cached: Option<seq<string>>, accepted: nat, random: nat -> real): (r: seq<Job>)
    ensures |r| == |log| + Min(CeilDiv(|AllMoviesWithRatings(cached)|, SweepBatchSize), accepted)
    ensures r[..|log|] == log
  {
    ChunksPartition(AllMoviesWithRatings(cached), SweepBatchSize);
    EnqueueFrom(log, Chunks(AllMoviesWithRatings(cached), SweepBatchSize), 0, accepted, random)
  }

  /** The ids the jobs of a log carry, in order. */
  function BatchIds(jobs: seq<Job>): seq<seq<string>> {
    seq(|jobs|, i requires 0 <= i < |jobs| => if jobs[i].payload.MovieBatch? then jobs[i].payload.movieIds else [])
  }

  /**
   * When the queue takes every add, the full sweep queues `ceil(n / 50)`
   * jobs whose id lists, laid end to end, are exactly the movies found,
   * each list holding at most 50 ids and each delay in [0, 10000).
   */
  lemma SyncAllCoversEveryMovie(log: seq<Job>, cached: Option<seq<string>>, accepted: nat, random: nat -> real)
    requires forall i :: 0.0 <= random(i) < 1.0
    ensures var ids := AllMoviesWithRatings(cached);
      var r := SyncAllMovieStats(log, cached, accepted, random);
      var added := r[|log|..];
      && r[..|log|] == log
      && (accepted >= CeilDiv(|ids|, 50) ==> |added| == CeilDiv(|ids|, 50) && Flatten(BatchIds(added)) == ids)
      && (forall j :: 0 <= j < |added| ==>
            added[j].name == "batch-update-stats" && added[j].attempts == Some(2)
            && added[j].payload.MovieBatch? && 1 <= |added[j].payload.movieIds| <= 50
            && added[j].delay.Some? && 0.0 <= added[j].delay.value < JitterMs)
  {
    var ids := AllMoviesWithRatings(cached);
    var chunks := Chunks(ids, SweepBatchSize);
    ChunksPartition(ids, SweepBatchSize);
    var r := SyncAllMovieStats(log, cached, accepted, random);
    var added := r[|log|..];
    forall j | 0 <= j < |added|
      ensures added[j] == BatchJob(chunks[j], Some(random(j) * JitterMs))
    {
      assert added[j] == r[|log| + j - 0];
    }
    if accepted >= |chunks| {
      assert BatchIds(added) == chunks;
    }
  }

  /** Without ids in the cache, the database fallback finds none and the full sweep queues nothing. */
  lemma MissingListQueuesNothing(log: seq<Job>, cached: Option<seq<string>>, accepted: nat, random: nat -> real)
    requires cached.None? || cached.value == []
    ensures SyncAllMovieStats(log, cached, accepted, random) == log
  {
    assert Chunks(MoviesFromDatabase(), SweepBatchSize) == [];
  }
}
