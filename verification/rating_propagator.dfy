/**
 * The search-index propagation of `SyncService`: the per-movie debounce map
 * of rating updates, the timers a logical clock fires, the event listeners
 * with their delayed retry, the start-up decision to bulk-index, and the
 * batches a bulk sync walks through.
 *
 * Timers are kept by handle; `clearTimeout` of a handle that already fired
 * is a no-op, exactly as removing an absent key from a map is.
 */
module RatingPropagator {
  import opened Wrappers
  import opened JsNumber
  import opened DurableStore

  /** The debounce delay of a rating update. */
  const DebounceMs: int := 5000
  /** The delay before a failed rating update is scheduled again. */
  const RetryMs: int := 10000
  /** The delay before a failed movie event is emitted again. */
  const FailureRetryMs: int := 30000
  /** The batch size the start-up bulk sync uses. */
  const InitBatchSize: int := 20

  datatype Action = Create | Update | RatingUpdate

  /** `MovieSyncEvent` (its optional `data` is never read). */
  datatype SyncEvent = SyncEvent(movieId: string, action: Action)

  /** What a timer does when it fires. */
  datatype Callback =
    | RunUpdate(movieId: string)          // the debounced `updateMovieRatingInSearch`
    | Reschedule(movieId: string)         // the retry `scheduleRatingUpdate` after a failure
    | Emit(name: string, event: SyncEvent) // the retry emission of `handleSyncFailure`

  datatype Pending = Pending(due: int, callback: Callback)

  /** The rating part of a search document. */
  datatype Distribution = Distribution(buckets: seq<int>, trendingScore: real)
  datatype IndexedRating = IndexedRating(averageRating: real, totalRatings: int, distribution: Option<Distribution>)

  /**
   * The service: `ratingUpdateQueue` (movie to timer handle), the live
   * timers by handle, the next handle to hand out, and the rating fields of
   * the search index.
   */
  datatype Service = Service(
    queue: map<string, nat>,
    timers: map<nat, Pending>,
    nextHandle: nat,
    index: map<string, IndexedRating>)

  const Initial: Service := Service(map[], map[], 0, map[])

  /** Whether the database and the search engine answer when a timer fires. */
  datatype Env = Env(dbUp: bool, searchUp: bool)

  /**
   * Handles are fresh, and every live update timer is the one the queue
   * holds for its movie.
   */
  predicate Valid(s: Service) {
    && (forall h :: h in s.timers ==> h < s.nextHandle)
    && (forall m :: m in s.queue ==> s.queue[m] < s.nextHandle)
    && (forall h :: h in s.timers && s.timers[h].callback.RunUpdate? ==>
          s.timers[h].callback.movieId in s.queue && s.queue[s.timers[h].callback.movieId] == h)
  }

  /** A live timer that will run the index update of `m`. */
  predicate UpdatePending(s: Service, h: nat, m: string) {
    h in s.timers && s.timers[h].callback == RunUpdate(m)
  }

  /** The point of the debounce map: at most one index update is pending per movie. */
  lemma AtMostOneUpdate(s: Service, m: string, h1: nat, h2: nat)
    requires Valid(s)
    requires UpdatePending(s, h1, m) && UpdatePending(s, h2, m)
    ensures h1 == h2
  {
  }

  /** `setTimeout(callback, delay)` at time `now`. */
  function AddTimer(s: Service, due: int, cb: Callback): (r: Service)
    ensures r.nextHandle == s.nextHandle + 1
    ensures r.timers == s.timers[s.nextHandle := Pending(due, cb)]
    ensures r.queue == s.queue && r.index == s.index
  {
    s.(timers := s.timers[s.nextHandle := Pending(due, cb)], nextHandle := s.nextHandle + 1)
  }

  // ---------------------------------------------------------------------
  // scheduleRatingUpdate
  // ---------------------------------------------------------------------

  /** `scheduleRatingUpdate(m)` at time `now`: cancel the movie's timer, then arm a new one. */
  function Schedule(s: Service, m: string, now: int): (r: Service)
    ensures m in r.queue && r.queue[m] == s.nextHandle
    ensures r.queue[m] in r.timers && r.timers[r.queue[m]] == Pending(now + DebounceMs, RunUpdate(m))
    ensures m in s.queue ==> s.queue[m] != s.nextHandle ==> s.queue[m] !in r.timers
    ensures forall k :: k != m ==> (k in r.queue <==> k in s.queue)
    ensures forall k :: k != m && k in s.queue ==> r.queue[k] == s.queue[k]
    ensures forall h :: h in s.timers && h != s.nextHandle && !(m in s.queue && h == s.queue[m]) ==> h in r.timers && r.timers[h] == s.timers[h]
    ensures forall h :: h in r.timers ==> h == s.nextHandle || h in s.timers
    ensures r.index == s.index
  {
    var kept := if m in s.queue then s.timers - {s.queue[m]} else s.timers;
    var h := s.nextHandle;
    Service(s.queue[m := h], kept[h := Pending(now + DebounceMs, RunUpdate(m))], h + 1, s.index)
  }

  lemma ScheduleKeepsValid(s: Service, m: string, now: int)
    requires Valid(s)
    ensures Valid(Schedule(s, m, now))
  {
    var r := Schedule(s, m, now);
    forall h | h in r.timers && r.timers[h].callback.RunUpdate?
      ensures r.timers[h].callback.movieId in r.queue && r.queue[r.timers[h].callback.movieId] == h
    {
      if h != s.nextHandle {
        var k := r.timers[h].callback.movieId;
        assert h in s.timers && s.timers[h] == r.timers[h];
        assert k != m;
      }
    }
  }

  /** After scheduling, the movie's only pending update is the new one, due 5000 later. */
  lemma ScheduleLeavesOneUpdate(s: Service, m: string, now: int, h: nat)
    requires Valid(s)
    requires UpdatePending(Schedule(s, m, now), h, m)
    ensures h == s.nextHandle
    ensures Schedule(s, m, now).timers[h].due == now + DebounceMs
  {
    ScheduleKeepsValid(s, m, now);
  }

  /** `k` schedules of one movie in a row, at the given times. */
  function ScheduleAll(s: Service, m: string, times: seq<int>): (r: Service)
    ensures r.index == s.index
    decreases |times|
  {
    if times == [] then s else ScheduleAll(Schedule(s, m, times[0]), m, times[1..])
  }

  /**
   * Any number of schedules of a movie before a timer fires leave exactly
   * one pending update, armed by the last of them.
   */
  lemma {:induction false} ScheduleAllCoalesces(s: Service, m: string, times: seq<int>)
    requires Valid(s) && times != []
    ensures var r := ScheduleAll(s, m, times);
      && Valid(r)
      && m in r.queue && UpdatePending(r, r.queue[m], m)
      && r.timers[r.queue[m]].due == times[|times| - 1] + DebounceMs
      && forall h :: UpdatePending(r, h, m) ==> h == r.queue[m]
    decreases |times|
  {
    var s1 := Schedule(s, m, times[0]);
    ScheduleKeepsValid(s, m, times[0]);
    if |times| == 1 {
      assert ScheduleAll(s1, m, times[1..]) == s1;
    } else {
      ScheduleAllCoalesces(s1, m, times[1..]);
      assert times[1..][|times[1..]| - 1] == times[|times| - 1];
    }
  }

  // ---------------------------------------------------------------------
  // updateMovieRatingInSearch
  // ---------------------------------------------------------------------

  datatype IndexFailure = DatabaseUnavailable | SearchUnavailable

  /** The rating fields the index receives for a stored movie. */
  function IndexedFrom(store: Store, m: string): IndexedRating
    requires m in store.movies
  {
    var row := store.movies[m];
    var dist := if m in store.statistics
      then Some(Distribution(store.statistics[m].bucketCounts, store.statistics[m].trendingScore))
      else None;
    IndexedRating(row.averageRating, row.totalRatings, dist)
  }

  /**
   * `updateMovieRatingInSearch(m)`: read the movie row with its statistics
   * and, when the row exists, push its rating fields to the index.
   */
  function UpdateRatingInSearch(index: map<string, IndexedRating>, store: Store, m: string, env: Env)
    : (r: Result<map<string, IndexedRating>, IndexFailure>)
    ensures !env.dbUp ==> r == Failure(DatabaseUnavailable)
    ensures env.dbUp && m !in store.movies ==> r == Success(index)
    ensures r.Success? && m in store.movies ==> r.value == index[m := IndexedFrom(store, m)]
    ensures r.Failure? <==> !env.dbUp || (m in store.movies && !env.searchUp)
  {
    if !env.dbUp then Failure(DatabaseUnavailable)
    else if m !in store.movies then Success(index)
    else if !env.searchUp then Failure(SearchUnavailable)
    else Success(index[m := IndexedFrom(store, m)])
  }

  // ---------------------------------------------------------------------
  // Event listeners and the retry of a failed sync
  // ---------------------------------------------------------------------

  function ActionName(a: Action): string {
    match a
    case Create => "create"
    case Update => "update"
    case RatingUpdate => "rating_update"
  }

  /** The events the service listens to. */
  predicate Listened(name: string) {
    name == "movie.created" || name == "movie.updated" || name == "rating.created" || name == "rating.updated"
  }

  /** The name `handleSyncFailure` emits the retry under, as written. */
  function RetryEventName(a: Action): (name: string)
    ensures !Listened(name)
  {
    var prefix := if a == RatingUpdate then "rating" else "movie";
    var name := prefix + "." + ActionName(a);
    assert name[|name| - 1] == 'e';
    name
  }

  /** The listener the retry of an event is meant to reach. */
  function IntendedRetryEventName(a: Action): (name: string)
    ensures Listened(name)
  {
    match a
    case Create => "movie.created"
    case Update => "movie.updated"
    case RatingUpdate => "rating.updated"
  }

  /** `handleSyncFailure` as written: the retry emission is due 30000 later. */
  function HandleSyncFailureAsWritten(s: Service, ev: SyncEvent, now: int): (r: Service)
    ensures s.nextHandle in r.timers && r.timers[s.nextHandle] == Pending(now + FailureRetryMs, Emit(RetryEventName(ev.action), ev))
  {
    AddTimer(s, now + FailureRetryMs, Emit(RetryEventName(ev.action), ev))
  }

  /** `handleSyncFailure` with the retry emitted under the listened name. */
  function HandleSyncFailure(s: Service, ev: SyncEvent, now: int): (r: Service)
    ensures s.nextHandle in r.timers && r.timers[s.nextHandle] == Pending(now + FailureRetryMs, Emit(IntendedRetryEventName(ev.action), ev))
    ensures r.queue == s.queue && r.index == s.index
  {
    AddTimer(s, now + FailureRetryMs, Emit(IntendedRetryEventName(ev.action), ev))
  }

  /**
   * `handleMovieCreated` / `handleMovieUpdate`: fetch the movie and hand it
   * to the search engine; either failing schedules the retry.
   */
  function HandleMovieEvent(s: Service, ev: SyncEvent, now: int, env: Env): (r: Service)
    ensures env.dbUp && env.searchUp ==> r == s
    ensures !(env.dbUp && env.searchUp) ==> r == HandleSyncFailure(s, ev, now)
  {
    if env.dbUp && env.searchUp then s else HandleSyncFailure(s, ev, now)
  }

  /**
   * `handleMovieCreated` / `handleMovieUpdate` as written: a failure
   * reaches the as-written `handleSyncFailure`.
   */
  function HandleMovieEventAsWritten(s: Service, ev: SyncEvent, now: int, env: Env): (r: Service)
    ensures env.dbUp && env.searchUp ==> r == s
    ensures !(env.dbUp && env.searchUp) ==> r == HandleSyncFailureAsWritten(s, ev, now)
  {
    if env.dbUp && env.searchUp then s else HandleSyncFailureAsWritten(s, ev, now)
  }

  /** The listener an event name reaches; a name nobody listens to changes nothing. */
  function Dispatch(s: Service, name: string, ev: SyncEvent, now: int, env: Env): (r: Service)
    ensures !Listened(name) ==> r == s
    ensures name == "rating.created" || name == "rating.updated" ==> r == Schedule(s, ev.movieId, now)
  {
    if name == "movie.created" || name == "movie.updated" then HandleMovieEvent(s, ev, now, env)
    else if name == "rating.created" || name == "rating.updated" then Schedule(s, ev.movieId, now)
    else s
  }

  /** The handler an event of each action is first delivered to. */
  function Handler(s: Service, ev: SyncEvent, now: int, env: Env): Service {
    match ev.action
    case RatingUpdate => Schedule(s, ev.movieId, now)
    case _ => HandleMovieEvent(s, ev, now, env)
  }

  /** As written, the retry emission reaches no listener: the failed sync is never retried. */
  lemma RetryAsWrittenIsLost(s: Service, ev: SyncEvent, now: int, env: Env)
    ensures Dispatch(s, RetryEventName(ev.action), ev, now, env) == s
  {
  }

  /** With the intended names, the retry runs the same handler again. */
  lemma RetryReachesHandler(s: Service, ev: SyncEvent, now: int, env: Env)
    ensures Dispatch(s, IntendedRetryEventName(ev.action), ev, now, env) == Handler(s, ev, now, env)
  {
  }

  // ---------------------------------------------------------------------
  // Timers firing
  // ---------------------------------------------------------------------

  /**
   * The timer with handle `h` fires at its due time. An update that
   * succeeds drops the movie from the queue; one that fails keeps the stale
   * entry and schedules the movie again 10000 later.
   */
  function Fire(s: Service, h: nat, store: Store, env: Env): (r: Service)
    ensures h !in s.timers ==> r == s
    ensures h in s.timers ==> h !in r.timers || h == s.nextHandle
  {
    if h !in s.timers then s
    else
      var p := s.timers[h];
      var s1 := s.(timers := s.timers - {h});
      match p.callback
      case RunUpdate(m) =>
        (match UpdateRatingInSearch(s1.index, store, m, env)
         case Success(index) => s1.(index := index, queue := s1.queue - {m})
         case Failure(_) => AddTimer(s1, p.due + RetryMs, Reschedule(m)))
      case Reschedule(m) => Schedule(s1, m, p.due)
      case Emit(name, ev) => Dispatch(s1, name, ev, p.due, env)
  }

  /** Firing a movie's pending update: what happens on success and on failure. */
  lemma FireUpdate(s: Service, h: nat, m: string, store: Store, env: Env)
    requires Valid(s) && UpdatePending(s, h, m)
    ensures var r := Fire(s, h, store, env);
      && h !in r.timers
      && (forall g :: !UpdatePending(r, g, m))
      && (UpdateRatingInSearch(s.index, store, m, env).Success? ==>
            m !in r.queue && r.index == UpdateRatingInSearch(s.index, store, m, env).value)
      && (UpdateRatingInSearch(s.index, store, m, env).Failure? ==>
            m in r.queue && r.index == s.index
            && s.nextHandle in r.timers && r.timers[s.nextHandle] == Pending(s.timers[h].due + RetryMs, Reschedule(m)))
  {
  }

  /** A missing movie row issues no index update, and the update counts as done. */
  lemma FireForMissingMovie(s: Service, h: nat, m: string, store: Store, env: Env)
    requires Valid(s) && UpdatePending(s, h, m)
    requires env.dbUp && m !in store.movies
    ensures Fire(s, h, store, env).index == s.index
    ensures m !in Fire(s, h, store, env).queue
  {
  }

  lemma FireKeepsValid(s: Service, h: nat, store: Store, env: Env)
    requires Valid(s)
    ensures Valid(Fire(s, h, store, env))
  {
    if h in s.timers {
      var p := s.timers[h];
      var s1 := s.(timers := s.timers - {h});
      assert Valid(s1);
      match p.callback
      case RunUpdate(m) =>
      case Reschedule(m) => ScheduleKeepsValid(s1, m, p.due);
      case Emit(name, ev) =>
        if name == "rating.created" || name == "rating.updated" {
          ScheduleKeepsValid(s1, ev.movieId, p.due);
        }
    }
  }

  /**
   * As written, a movie event whose sync fails arms a retry that, when its
   * timer fires 30000 later, only uses up a handle: no handler runs and the
   * movie is never synced again.
   */
  lemma FailedMovieEventNeverRetried(s: Service, ev: SyncEvent, now: int, env: Env, store: Store, later: Env)
    requires Valid(s) && !(env.dbUp && env.searchUp)
    ensures var armed := HandleMovieEventAsWritten(s, ev, now, env);
      Fire(armed, s.nextHandle, store, later) == s.(nextHandle := s.nextHandle + 1)
  {
    var armed := HandleMovieEventAsWritten(s, ev, now, env);
    assert s.nextHandle !in s.timers;
    assert armed.timers - {s.nextHandle} == s.timers;
    RetryAsWrittenIsLost(armed.(timers := s.timers), ev, now + FailureRetryMs, later);
  }

  /**
   * With the intended event names, firing the armed retry runs the event's
   * handler again, 30000 after the failure.
   */
  lemma FailedMovieEventRetried(s: Service, ev: SyncEvent, now: int, env: Env, store: Store, later: Env)
    requires Valid(s) && !(env.dbUp && env.searchUp)
    ensures var armed := HandleMovieEvent(s, ev, now, env);
      Fire(armed, s.nextHandle, store, later) == Handler(s.(nextHandle := s.nextHandle + 1), ev, now + FailureRetryMs, later)
  {
    var armed := HandleMovieEvent(s, ev, now, env);
    assert s.nextHandle !in s.timers;
    assert armed.timers - {s.nextHandle} == s.timers;
    RetryReachesHandler(armed.(timers := s.timers), ev, now + FailureRetryMs, later);
  }

  // ---------------------------------------------------------------------
  // onModuleDestroy
  // ---------------------------------------------------------------------

  /** The handles the queue holds. */
  predicate Queued(s: Service, h: nat) {
    exists m :: m in s.queue && s.queue[m] == h
  }

  /** `onModuleDestroy`: clear every timer the queue holds, then the queue. */
  function Destroy(s: Service): (r: Service)
    ensures r.queue == map[]
    ensures forall h :: h in r.timers <==> h in s.timers && !Queued(s, h)
    ensures forall h :: h in r.timers ==> r.timers[h] == s.timers[h]
    ensures r.index == s.index && r.nextHandle == s.nextHandle
  {
    var kept := map h | h in s.timers && !Queued(s, h) :: s.timers[h];
    Service(map[], kept, s.nextHandle, s.index)
  }

  /** After destroy no index update is pending for any movie. */
  lemma DestroyCancelsUpdates(s: Service, h: nat, m: string)
    requires Valid(s)
    ensures Valid(Destroy(s))
    ensures !UpdatePending(Destroy(s), h, m)
  {
    if h in s.timers && s.timers[h].callback.RunUpdate? {
      var k := s.timers[h].callback.movieId;
      assert Queued(s, h) by { assert k in s.queue && s.queue[k] == h; }
    }
    var r := Destroy(s);
    forall g | g in r.timers ensures !r.timers[g].callback.RunUpdate? {
      if s.timers[g].callback.RunUpdate? {
        var k := s.timers[g].callback.movieId;
        assert Queued(s, g) by { assert k in s.queue && s.queue[k] == g; }
      }
    }
  }

  // ---------------------------------------------------------------------
  // Any interleaving
  // ---------------------------------------------------------------------

  datatype Step =
    | RatingChanged(movieId: string, now: int)   // `triggerRatingSync` or a `rating.*` event
    | TimerFires(handle: nat, store: Store, env: Env)
    | EventArrives(name: string, event: SyncEvent, now: int, env: Env)
    | ModuleDestroyed

  function StepOf(s: Service, st: Step): Service {
    match st
    case RatingChanged(m, now) => Schedule(s, m, now)
    case TimerFires(h, store, env) => Fire(s, h, store, env)
    case EventArrives(name, ev, now, env) => Dispatch(s, name, ev, now, env)
    case ModuleDestroyed => Destroy(s)
  }

  /** Every kind of step keeps the timers and the debounce map in step. */
  lemma StepKeepsValid(s: Service, st: Step)
    ensures Valid(s) ==> Valid(StepOf(s, st))
  {
    if Valid(s) {
      match st {
        case RatingChanged(m, now) => ScheduleKeepsValid(s, m, now);
        case TimerFires(h, store, env) => FireKeepsValid(s, h, store, env);
        case EventArrives(name, ev, now, env) =>
          if name == "rating.created" || name == "rating.updated" {
            ScheduleKeepsValid(s, ev.movieId, now);
          }
        case ModuleDestroyed => DestroyCancelsUpdates(s, 0, "");
      }
    }
  }

  /** A consistent service has at most one pending index update per movie. */
  lemma OneUpdatePerMovie(s: Service)
    ensures Valid(s) ==> forall m, h1, h2 :: UpdatePending(s, h1, m) && UpdatePending(s, h2, m) ==> h1 == h2
  {
    if Valid(s) {
      forall m, h1, h2 | UpdatePending(s, h1, m) && UpdatePending(s, h2, m) ensures h1 == h2 {
        AtMostOneUpdate(s, m, h1, h2);
      }
    }
  }

  /**
   * Any interleaving of rating changes, timers firing, events and destroys,
   * from a consistent service: the service stays consistent, so no movie
   * ever has two pending index updates.
   */
  function Run(s: Service, steps: seq<Step>): (r: Service)
    ensures Valid(s) ==> Valid(r)
    ensures Valid(s) ==> forall m, h1, h2 :: UpdatePending(r, h1, m) && UpdatePending(r, h2, m) ==> h1 == h2
    decreases |steps|
  {
    if steps == [] then
      OneUpdatePerMovie(s);
      s
    else
      StepKeepsValid(s, steps[0]);
      Run(StepOf(s, steps[0]), steps[1..])
  }

  // ---------------------------------------------------------------------
  // onModuleInit and bulkSync
  // ---------------------------------------------------------------------

  /** `documentCount < totalMoviesInDB * 0.8`. */
  predicate NeedsBulkSync(documentCount: int, moviesInDb: int) {
    (documentCount as real) < (moviesInDb as real) * 0.8
  }

  /** The start-up threshold in whole numbers: the index holds less than four fifths of the movies. */
  lemma NeedsBulkSyncInIntegers(documentCount: int, moviesInDb: int)
    ensures NeedsBulkSync(documentCount, moviesInDb) <==> 5 * documentCount < 4 * moviesInDb
  {
  }

  datatype InitOutcome = InitOutcome(bulkSync: bool, initialized: bool)

  /**
   * `onModuleInit`. `documentCount` is None when the index statistics
   * cannot be read or report no count (taken as 0); `moviesInDb` is None
   * when the count query throws; `bulkOk` is whether the bulk sync
   * completes. Every error is caught and leaves the service uninitialised.
   */
  function OnModuleInit(healthy: bool, documentCount: Option<int>, moviesInDb: Option<int>, bulkOk: bool): (r: InitOutcome)
    ensures r.bulkSync <==> healthy && moviesInDb.Some? && NeedsBulkSync(documentCount.GetOr(0), moviesInDb.value)
    ensures r.initialized <==> healthy && moviesInDb.Some? && (r.bulkSync ==> bulkOk)
  {
    if !healthy || moviesInDb.None? then InitOutcome(false, false)
    else
      var docs := documentCount.GetOr(0);
      if NeedsBulkSync(docs, moviesInDb.value) then InitOutcome(true, bulkOk)
      else InitOutcome(false, true)
  }

  /** One `findMany` page of a bulk sync. */
  datatype Window = Window(skip: int, take: int)

  predicate Covers(w: Window, k: int) {
    w.skip <= k < w.skip + w.take
  }

  /**
   * The pages `bulkSync(size)` fetches for a table of `total` movies: the
   * batch size is a whole number of at least 1 (the start-up call passes 20
   * and the admin endpoint validates its query that way).
   */
  method BulkSyncWindows(total: nat, size: int) returns (ws: seq<Window>)
    requires size >= 1
    ensures |ws| == CeilDiv(total, size)
    ensures forall i :: 0 <= i < |ws| ==> ws[i] == Window(i * size, size)
  {
    var batches := CeilDiv(total, size);
    ws := [];
    var i := 0;
    while i < batches
      invariant 0 <= i <= batches
      invariant |ws| == i
      invariant forall j :: 0 <= j < i ==> ws[j] == Window(j * size, size)
    {
      ws := ws + [Window(i * size, size)];
      i := i + 1;
    }
  }

  /** Some page of `ws` holds offset `k`. */
  predicate Covered(ws: seq<Window>, k: int) {
    exists i :: 0 <= i < |ws| && Covers(ws[i], k)
  }

  /**
   * The pages of a bulk sync visit every movie offset exactly once, and no
   * page starts past the end of the table.
   */
  lemma BulkSyncCoversEachOffsetOnce(total: nat, size: int, ws: seq<Window>)
    requires size >= 1
    requires |ws| == CeilDiv(total, size)
    requires forall i :: 0 <= i < |ws| ==> ws[i] == Window(i * size, size)
    ensures forall i :: 0 <= i < |ws| ==> ws[i].skip < total
    ensures forall k :: 0 <= k < total ==> Covered(ws, k)
    ensures forall i, j, k :: 0 <= i < |ws| && 0 <= j < |ws| && Covers(ws[i], k) && Covers(ws[j], k) ==> i == j
  {
    var c := |ws|;
    forall i | 0 <= i < c ensures ws[i].skip < total {
      MulLeft(i, c - 1, size);
    }
    forall k | 0 <= k < total ensures Covered(ws, k) {
      PageOfOffset(total, size, c, k);
      var i := k / size;
      assert Covers(ws[i], k);
    }
    forall i, j, k | 0 <= i < c && 0 <= j < c && Covers(ws[i], k) && Covers(ws[j], k) ensures i == j {
      PagesDisjoint(i, j, k, size);
    }
  }

  /** Offset `k` lies on page `k / size`, which is one of the pages fetched. */
  lemma PageOfOffset(total: nat, size: int, c: int, k: int)
    requires size >= 1 && c == CeilDiv(total, size) && 0 <= k < total
    ensures 0 <= k / size < c
    ensures (k / size) * size <= k < (k / size) * size + size
  {
    var i := k / size;
    if i >= c {
      MulLeft(c, i, size);
    }
  }

  /** Two pages of the same size holding the same offset are the same page. */
  lemma PagesDisjoint(i: int, j: int, k: int, size: int)
    requires size >= 1
    requires i * size <= k < i * size + size && j * size <= k < j * size + size
    ensures i == j
  {
    if i < j {
      MulLeft(i + 1, j, size);
    } else if j < i {
      MulLeft(j + 1, i, size);
    }
  }

  lemma MulLeft(a: int, b: int, size: int)
    requires a <= b && size >= 1
    ensures a * size <= b * size
  {
  }
}
