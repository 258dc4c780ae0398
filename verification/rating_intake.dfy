/**
 * Rating intake (`CreateRatingUseCase.execute`): validate the value and the
 * identity, refuse duplicates, write the rating to the cache in one
 * pipeline, enqueue the background jobs, and answer with optimistic stats
 * read back from the cache counters.
 */
module RatingIntake {
  import opened Wrappers
  import opened Text
  import opened JsNumber
  import opened JsonText
  import opened CacheStore
  import opened PendingCodec
  import opened RatingValues
  import opened SessionIds
  import opened DurableStore
  import opened RatingKeys
  import opened JobLog

  /** The request body; the rating is whatever number the client sent. */
  datatype CreateRatingDto = CreateRatingDto(
    movieId: string,
    rating: Num,
    sessionId: Option<string>,
    userId: Option<string>,
    ipAddress: Option<string>,
    userAgent: Option<string>)

  /** Everything intake can touch: the cache, the database and the job queues. */
  datatype World = World(cache: Cache, store: Store, jobs: seq<Job>)

  /**
   * What intake takes from its surroundings: the generated id, the clock,
   * `Math.random()`, whether each cache call, the database and each queue
   * answer, and how many pipeline commands reach Redis.
   */
  datatype IntakeEnv = IntakeEnv(
    newId: string,
    now: int,
    random: real,
    markerCheckUp: bool,
    dbUp: bool,
    markerSetUp: bool,
    sent: nat,
    writeQueueUp: bool,
    statsQueueUp: bool,
    readBackUp: bool)

  /** Why `execute` throws. */
  datatype IntakeError =
    | InvalidRating
    | MissingIdentifier
    | DuplicateRating(movieId: string)
    | DatabaseUnavailable
    | EnqueueFailed(cause: QueueError)

  datatype EstimatedStats = EstimatedStats(averageRating: real, totalRatings: int)

  datatype RatingResponse = RatingResponse(
    id: string,
    movieId: string,
    rating: real,
    createdAt: Num,
    averageRating: real,
    totalRatings: int)

  /** How long a duplicate marker lives. */
  const MarkerTtlSeconds: nat := 3600

  /** The number of commands in the intake pipeline. */
  const PipelineLength: nat := 6

  // ---------------------------------------------------------------------
  // Duplicate key and duplicate check
  // ---------------------------------------------------------------------

  /**
   * The text of `${sessionId || userId}`: the session id when it is
   * non-empty, otherwise the user id as it is, and "undefined" when there is
   * none.
   */
  function DuplicateWho(ident: SessionIdentifier): string {
    if TruthyText(ident.GetSessionId()) then ident.GetSessionId().value
    else match ident.GetUserId()
      case Some(u) => u
      case None => "undefined"
  }

  /** `buildDuplicateKey`. */
  function DuplicateKey(movieId: string, ident: SessionIdentifier): string {
    DupKey(movieId, DuplicateWho(ident))
  }

  /** The part after `dup:<movieId>:` identifies the marker. */
  lemma DupKeyInjective(movieId: string, a: string, b: string)
    ensures DupKey(movieId, a) == DupKey(movieId, b) <==> a == b
  {
    var p := "dup:" + movieId + ":";
    if DupKey(movieId, a) == DupKey(movieId, b) {
      assert p + a == p + b;
      assert a == (p + a)[|p|..];
    }
  }

  /**
   * The marker is chosen by session id first: the same user id under two
   * different non-empty session ids gives two different markers, so the
   * second submission misses the cache and only the database lookup can
   * catch it.
   */
  lemma SessionChoosesMarker(movieId: string, a: SessionIdentifier, b: SessionIdentifier)
    requires TruthyText(a.GetSessionId()) && TruthyText(b.GetSessionId())
    ensures DuplicateKey(movieId, a) == DuplicateKey(movieId, b) <==> a.GetSessionId() == b.GetSessionId()
  {
    DupKeyInjective(movieId, DuplicateWho(a), DuplicateWho(b));
  }

  /**
   * Without a session id the user id decides; raters with neither share the
   * one marker `dup:<movieId>:undefined`, although `isDuplicate` never holds
   * between them.
   */
  lemma UserOrUndefinedChoosesMarker(movieId: string, a: SessionIdentifier, b: SessionIdentifier)
    requires a.GetSessionId().None? && b.GetSessionId().None?
    ensures DuplicateKey(movieId, a) == DuplicateKey(movieId, b) <==>
      (if a.GetUserId().Some? then a.GetUserId().value else "undefined")
      == (if b.GetUserId().Some? then b.GetUserId().value else "undefined")
    ensures a.GetUserId().None? && b.GetUserId().None? ==>
      DuplicateKey(movieId, a) == DupKey(movieId, "undefined") && !IsDuplicate(a, b)
  {
    DupKeyInjective(movieId, DuplicateWho(a), DuplicateWho(b));
  }

  /**
   * `checkDuplicateRating`: a marker in the cache refuses at once; otherwise
   * the database is asked, and a row found there sets the marker for an hour
   * before refusing. None means the rating may proceed.
   */
  function CheckDuplicateRating(c: Cache, s: Store, movieId: string, ident: SessionIdentifier, env: IntakeEnv)
    : (r: (Cache, Option<IntakeError>))
    ensures r.1.None? <==>
      !Exists(c, DuplicateKey(movieId, ident), env.markerCheckUp) && env.dbUp && !FindDuplicate(s, movieId, ident)
    ensures r.1.Some? ==> r.1.value == DatabaseUnavailable || r.1.value == DuplicateRating(movieId)
    ensures r.0 != c ==> r.1 == Some(DuplicateRating(movieId)) && env.markerSetUp
  {
    var key := DuplicateKey(movieId, ident);
    if Exists(c, key, env.markerCheckUp) then (c, Some(DuplicateRating(movieId)))
    else if !env.dbUp then (c, Some(DatabaseUnavailable))
    else if FindDuplicate(s, movieId, ident) then
      (Set(c, key, JStr("exists"), MarkerTtlSeconds, env.markerSetUp), Some(DuplicateRating(movieId)))
    else (c, None)
  }

  // ---------------------------------------------------------------------
  // The rating entity and the cache pipeline
  // ---------------------------------------------------------------------

  /** `createRatingEntity`: both timestamps are the current time. */
  function NewRatingEntity(dto: CreateRatingDto, rv: RatingValue, env: IntakeEnv): Rating {
    Rating(env.newId, dto.movieId, rv.GetValue(), dto.sessionId, dto.userId, dto.ipAddress, dto.userAgent,
           Fin(env.now as real), Fin(env.now as real))
  }

  /** `value || ''`. */
  function OrEmpty(v: Option<string>): string {
    if v.Some? then v.value else ""
  }

  /** The fields of the `rating:<id>` hash, all of them text. */
  function HashFields(e: Rating, stars: int, now: int): map<string, string> {
    map[
      "id" := e.id,
      "movieId" := e.movieId,
      "rating" := IntToString(stars),
      "sessionId" := OrEmpty(e.sessionId),
      "userId" := OrEmpty(e.userId),
      "ipAddress" := OrEmpty(e.ipAddress),
      "userAgent" := OrEmpty(e.userAgent),
      "timestamp" := IntToString(now)]
  }

  /** The object pushed onto the pending list. */
  function PendingOf(e: Rating, stars: int, now: int): PendingEntry {
    PendingEntry(e.id, e.movieId, stars, e.sessionId, e.userId, e.ipAddress, e.userAgent, now)
  }

  /** The keys and values one run of the pipeline writes. */
  datatype Plan = Plan(
    hashKey: string,
    fields: map<string, string>,
    marker: string,
    entry: string,
    sumKey: string,
    countKey: string,
    bucketKey: string,
    stars: int)

  function PlanOf(e: Rating, stars: int, key: string, now: int): Plan {
    Plan(RatingHashKey(e.id), HashFields(e, stars, now), key, Encode(PendingOf(e, stars, now)),
         SumKey(e.movieId), CountKey(e.movieId), BucketKey(e.movieId, stars), stars)
  }

  /** The six commands of `fastWriteToCache`, in order. */
  function PlanOps(p: Plan): (ops: seq<Op>)
    ensures |ops| == PipelineLength
  {
    [ HSet(p.hashKey, p.fields),
      SetEx(p.marker, MarkerTtlSeconds, "exists"),
      LPush(PendingKey, p.entry),
      IncrByFloat(p.sumKey, p.stars),
      IncrBy(p.countKey, 1),
      IncrBy(p.bucketKey, 1) ]
  }

  function WriteOps(e: Rating, stars: int, key: string, now: int): (ops: seq<Op>)
    ensures |ops| == PipelineLength
  {
    PlanOps(PlanOf(e, stars, key, now))
  }

  /**
   * `fastWriteToCache`: whatever the pipeline leaves behind; error replies
   * and a rejected `exec` are both logged and swallowed, so only the cache
   * comes out of it.
   */
  function FastWriteToCache(c: Cache, e: Rating, stars: int, key: string, now: int, sent: nat): Cache {
    Exec(c, WriteOps(e, stars, key, now), sent).0
  }

  /** The six keys are pairwise different. */
  predicate Distinct(p: Plan) {
    && p.hashKey != p.marker && p.hashKey != PendingKey && p.marker != PendingKey
    && p.sumKey != p.countKey && p.sumKey != p.bucketKey && p.countKey != p.bucketKey
    && p.sumKey != p.hashKey && p.sumKey != p.marker && p.sumKey != PendingKey
    && p.countKey != p.hashKey && p.countKey != p.marker && p.countKey != PendingKey
    && p.bucketKey != p.hashKey && p.bucketKey != p.marker && p.bucketKey != PendingKey
  }

  /**
   * A fresh rating hash, a non-empty field map and a pending list (or no
   * pending key yet): the first three commands then succeed.
   */
  predicate PlanReady(c: Cache, p: Plan) {
    && p.hashKey !in c.data
    && |p.fields| > 0
    && (PendingKey !in c.data || c.data[PendingKey].List?)
  }

  /** The three counters hold `ns`, `nc` and `nb`: the last three commands then succeed. */
  predicate CountersHold(c: Cache, p: Plan, ns: int, nc: int, nb: int) {
    && CounterAt(c, p.sumKey) == Some(ns)
    && CounterAt(c, p.countKey) == Some(nc)
    && CounterAt(c, p.bucketKey) == Some(nb)
  }

  /** The cache after the first three commands: the hash, the marker and the pending entry. */
  function Front(c: Cache, p: Plan): Cache {
    Cache(c.data[p.hashKey := Hash(p.fields)][p.marker := Str("exists")]
                [PendingKey := List([p.entry] + ListAt(c, PendingKey))],
          c.ttl[p.marker := MarkerTtlSeconds])
  }

  /** The cache after the last three commands, from counters holding `ns`, `nc` and `nb`. */
  function Back(c: Cache, p: Plan, ns: int, nc: int, nb: int): Cache {
    WithCounter(WithCounter(WithCounter(c, p.sumKey, ns + p.stars), p.countKey, nc + 1), p.bucketKey, nb + 1)
  }

  lemma PlanOpsSplit(p: Plan)
    ensures PlanOps(p)[..3] == [HSet(p.hashKey, p.fields), SetEx(p.marker, MarkerTtlSeconds, "exists"), LPush(PendingKey, p.entry)]
    ensures PlanOps(p)[3..] == [IncrByFloat(p.sumKey, p.stars), IncrBy(p.countKey, 1), IncrBy(p.bucketKey, 1)]
    ensures PlanOps(p) == PlanOps(p)[..3] + PlanOps(p)[3..]
  {
  }

  /** The first three commands: the rating hash, the marker and the pending entry. */
  lemma PlanFront(c: Cache, p: Plan)
    requires PlanReady(c, p) && Distinct(p)
    ensures RunAll(c, PlanOps(p)[..3]).0 == Front(c, p)
  {
    PlanOpsSplit(p);
    RunAllThree(c, PlanOps(p)[..3]);
    ApplyHSetNew(c, p.hashKey, p.fields);
    var c1 := Cache(c.data[p.hashKey := Hash(p.fields)], c.ttl);
    ApplySetEx(c1, p.marker, MarkerTtlSeconds, "exists");
    var c2 := Cache(c1.data[p.marker := Str("exists")], c1.ttl[p.marker := MarkerTtlSeconds]);
    assert ListAt(c2, PendingKey) == ListAt(c, PendingKey);
    ApplyLPush(c2, PendingKey, p.entry);
  }

  /** The front of the pipeline leaves the three counters as they were. */
  lemma FrontKeepsCounters(c: Cache, p: Plan, ns: int, nc: int, nb: int)
    requires Distinct(p) && CountersHold(c, p, ns, nc, nb)
    ensures CountersHold(Front(c, p), p, ns, nc, nb)
  {
    var c1 := Put(c, p.hashKey, Hash(p.fields));
    var c2 := Put(c1, p.marker, Str("exists"));
    var pv := List([p.entry] + ListAt(c, PendingKey));
    forall k | k == p.sumKey || k == p.countKey || k == p.bucketKey
      ensures CounterAt(Front(c, p), k) == CounterAt(c, k)
    {
      CounterAtOther(c, p.hashKey, Hash(p.fields), k);
      CounterAtOther(c1, p.marker, Str("exists"), k);
      CounterAtOther(c2, PendingKey, pv, k);
    }
  }

  /** The last three commands add the stars to the sum and one to the count and the bucket. */
  lemma PlanBack(c: Cache, p: Plan, ns: int, nc: int, nb: int)
    requires Distinct(p) && CountersHold(c, p, ns, nc, nb)
    ensures RunAll(c, PlanOps(p)[3..]).0 == Back(c, p, ns, nc, nb)
  {
    PlanOpsSplit(p);
    AddThree(c, p.sumKey, p.stars, ns, p.countKey, 1, nc, p.bucketKey, 1, nb);
  }

  /** The whole pipeline, delivered to a cache of the right shape, is the front then the back. */
  lemma PlanRuns(c: Cache, p: Plan, ns: int, nc: int, nb: int)
    requires PlanReady(c, p) && Distinct(p) && CountersHold(c, p, ns, nc, nb)
    ensures RunAll(c, PlanOps(p)).0 == Back(Front(c, p), p, ns, nc, nb)
  {
    PlanOpsSplit(p);
    PlanFront(c, p);
    FrontKeepsCounters(c, p, ns, nc, nb);
    PlanBack(Front(c, p), p, ns, nc, nb);
    RunAllAppend(c, PlanOps(p)[..3], PlanOps(p)[3..]);
  }

  /** The counters after the whole pipeline: the sum grows by the stars, the count and the bucket by one. */
  lemma PlanCounters(c: Cache, p: Plan, ns: int, nc: int, nb: int)
    requires PlanReady(c, p) && Distinct(p) && CountersHold(c, p, ns, nc, nb)
    ensures CountersHold(RunAll(c, PlanOps(p)).0, p, ns + p.stars, nc + 1, nb + 1)
  {
    PlanRuns(c, p, ns, nc, nb);
    ReadThree(Front(c, p), p.sumKey, ns + p.stars, p.countKey, nc + 1, p.bucketKey, nb + 1);
  }

  /**
   * What the whole pipeline leaves besides the counters: the entry heads the
   * pending list, the hash holds the fields, the marker lives for an hour,
   * and no other key changes.
   */
  lemma PlanEffects(c: Cache, p: Plan, ns: int, nc: int, nb: int)
    requires PlanReady(c, p) && Distinct(p) && CountersHold(c, p, ns, nc, nb)
    ensures var after := RunAll(c, PlanOps(p)).0;
      && ListAt(after, PendingKey) == [p.entry] + ListAt(c, PendingKey)
      && p.hashKey in after.data && after.data[p.hashKey] == Hash(p.fields)
      && p.marker in after.data && p.marker in after.ttl && after.ttl[p.marker] == MarkerTtlSeconds
      && (forall k :: Outside(p, k) ==>
            (k in after.data <==> k in c.data) && (k in c.data ==> after.data[k] == c.data[k]))
      && (forall k :: k != p.marker ==> (k in after.ttl <==> k in c.ttl) && (k in c.ttl ==> after.ttl[k] == c.ttl[k]))
  {
    PlanRuns(c, p, ns, nc, nb);
  }

  /** A key none of the six commands names. */
  predicate Outside(p: Plan, k: string) {
    && k != p.hashKey && k != p.marker && k != PendingKey
    && k != p.sumKey && k != p.countKey && k != p.bucketKey
  }

  /** However many of the commands run, a key outside the plan is left alone. */
  lemma PlanTouchesOnly(c: Cache, p: Plan, n: nat, k: string)
    requires n <= PipelineLength && Outside(p, k)
    ensures var after := RunAll(c, PlanOps(p)[..n]).0;
      (k in after.data <==> k in c.data) && (k in c.data ==> after.data[k] == c.data[k])
  {
    var ops := PlanOps(p)[..n];
    assert forall i :: 0 <= i < |ops| ==> ops[i].key != k;
    RunAllOtherKey(c, ops, k);
  }

  /** Commands that all name other keys leave `k` alone. */
  lemma {:induction false} RunAllOtherKey(c: Cache, ops: seq<Op>, k: string)
    requires forall i :: 0 <= i < |ops| ==> ops[i].key != k
    ensures (k in RunAll(c, ops).0.data <==> k in c.data) && (k in c.data ==> RunAll(c, ops).0.data[k] == c.data[k])
    decreases |ops|
  {
    if |ops| > 0 {
      RunAllOtherKey(Apply(c, ops[0]).0, ops[1..], k);
    }
  }

  // ---------------------------------------------------------------------
  // The pipeline of one rating
  // ---------------------------------------------------------------------

  /** A fresh rating id and a pending list (or no pending key yet). */
  predicate ReadyFor(c: Cache, id: string) {
    && RatingHashKey(id) !in c.data
    && (PendingKey !in c.data || c.data[PendingKey].List?)
  }

  /** A key of the `dup:` kind. */
  predicate IsMarkerKey(key: string) {
    |key| > 0 && key[0] == 'd'
  }

  /** The three counter keys the pipeline increments are three different keys. */
  lemma CounterKeysDistinct(movieId: string, stars: int)
    ensures SumKey(movieId) != CountKey(movieId)
    ensures SumKey(movieId) != BucketKey(movieId, stars) && CountKey(movieId) != BucketKey(movieId, stars)
  {
    CounterKeyInjective(movieId, "rating_sum", "rating_count");
    CounterKeyInjective(movieId, "rating_sum", BucketField(stars));
    CounterKeyInjective(movieId, "rating_count", BucketField(stars));
    BucketFieldDistinct(stars, stars);
  }

  /** A counter key is neither the rating hash, nor the pending list, nor a marker. */
  lemma CounterKeyIsNoOtherKind(movieId: string, f: string, id: string, key: string)
    requires IsMarkerKey(key)
    ensures CounterKey(movieId, f) != RatingHashKey(id) && CounterKey(movieId, f) != PendingKey
    ensures CounterKey(movieId, f) != key
  {
    KeyKindsDistinct(movieId, f, id, movieId, "");
    assert CounterKey(movieId, f)[0] == 'm';
  }

  /** The rating hash, the pending list and the marker are three different keys. */
  lemma WriteKeysDistinct(id: string, key: string)
    requires IsMarkerKey(key)
    ensures RatingHashKey(id) != key && RatingHashKey(id) != PendingKey && key != PendingKey
  {
    assert RatingHashKey(id)[0] == 'r' && PendingKey[0] == 'p';
  }

  /** The six keys of the plan of one rating are pairwise different. */
  lemma PlanOfDistinct(e: Rating, stars: int, key: string, now: int)
    requires IsMarkerKey(key)
    ensures Distinct(PlanOf(e, stars, key, now))
  {
    CounterKeysDistinct(e.movieId, stars);
    WriteKeysDistinct(e.id, key);
    CounterKeyIsNoOtherKind(e.movieId, "rating_sum", e.id, key);
    CounterKeyIsNoOtherKind(e.movieId, "rating_count", e.id, key);
    CounterKeyIsNoOtherKind(e.movieId, BucketField(stars), e.id, key);
  }

  /** A cache ready for the rating is ready for its plan. */
  lemma PlanOfReady(c: Cache, e: Rating, stars: int, key: string, now: int)
    requires ReadyFor(c, e.id)
    ensures PlanReady(c, PlanOf(e, stars, key, now))
  {
    assert "id" in HashFields(e, stars, now);
  }

  /** With every command delivered, the pipeline of one rating runs its plan. */
  lemma FastWriteRunsPlan(c: Cache, e: Rating, stars: int, key: string, now: int, sent: nat)
    requires sent >= PipelineLength
    ensures FastWriteToCache(c, e, stars, key, now, sent) == RunAll(c, PlanOps(PlanOf(e, stars, key, now))).0
  {
  }

  /**
   * The whole pipeline of one rating, delivered to a cache of the right
   * shape whose sum, count and star bucket hold `ns`, `nc` and `nb`: the sum
   * grows by the stars, and the count and the bucket by one.
   */
  lemma FastWriteCounters(c: Cache, e: Rating, stars: int, key: string, now: int, ns: int, nc: int, nb: int)
    requires ReadyFor(c, e.id) && IsMarkerKey(key)
    requires CounterAt(c, SumKey(e.movieId)) == Some(ns) && CounterAt(c, CountKey(e.movieId)) == Some(nc)
    requires CounterAt(c, BucketKey(e.movieId, stars)) == Some(nb)
    ensures var after := FastWriteToCache(c, e, stars, key, now, PipelineLength);
      && CounterAt(after, SumKey(e.movieId)) == Some(ns + stars)
      && CounterAt(after, CountKey(e.movieId)) == Some(nc + 1)
      && CounterAt(after, BucketKey(e.movieId, stars)) == Some(nb + 1)
  {
    var p := PlanOf(e, stars, key, now);
    PlanOfDistinct(e, stars, key, now);
    PlanOfReady(c, e, stars, key, now);
    PlanCounters(c, p, ns, nc, nb);
    FastWriteRunsPlan(c, e, stars, key, now, PipelineLength);
    var after := RunAll(c, PlanOps(p)).0;
    assert p.sumKey == SumKey(e.movieId) && p.countKey == CountKey(e.movieId);
    assert p.bucketKey == BucketKey(e.movieId, stars) && p.stars == stars;
    assert CountersHold(after, p, ns + stars, nc + 1, nb + 1);
  }

  /**
   * Every other counter of the movie, `recent_count` among them, is left as
   * it was, however much of the pipeline reached Redis.
   */
  lemma FastWriteKeepsOtherCounters(c: Cache, e: Rating, stars: int, key: string, now: int, sent: nat, f: string)
    requires IsMarkerKey(key)
    requires f != "rating_sum" && f != "rating_count" && f != BucketField(stars)
    ensures CounterAt(FastWriteToCache(c, e, stars, key, now, sent), CounterKey(e.movieId, f))
         == CounterAt(c, CounterKey(e.movieId, f))
  {
    var k := CounterKey(e.movieId, f);
    CounterKeyInjective(e.movieId, f, "rating_sum");
    CounterKeyInjective(e.movieId, f, "rating_count");
    CounterKeyInjective(e.movieId, f, BucketField(stars));
    CounterKeyIsNoOtherKind(e.movieId, f, e.id, key);
    FastWriteTouchesOnlyItsKeys(c, e, stars, key, now, sent, k);
  }

  /**
   * The whole pipeline of one rating, delivered: its entry heads the pending
   * list, its hash holds the fields, the marker lives for an hour, and no
   * key outside the six written ones changes.
   */
  lemma FastWriteEffects(c: Cache, e: Rating, stars: int, key: string, now: int, ns: int, nc: int, nb: int)
    requires ReadyFor(c, e.id) && IsMarkerKey(key)
    requires CountersHold(c, PlanOf(e, stars, key, now), ns, nc, nb)
    ensures var after := FastWriteToCache(c, e, stars, key, now, PipelineLength);
      && ListAt(after, PendingKey) == [Encode(PendingOf(e, stars, now))] + ListAt(c, PendingKey)
      && RatingHashKey(e.id) in after.data && after.data[RatingHashKey(e.id)] == Hash(HashFields(e, stars, now))
      && Exists(after, key, true) && key in after.ttl && after.ttl[key] == MarkerTtlSeconds
      && (forall k :: Outside(PlanOf(e, stars, key, now), k) ==>
            (k in after.data <==> k in c.data) && (k in c.data ==> after.data[k] == c.data[k]))
      && (forall k :: k != key ==> (k in after.ttl <==> k in c.ttl) && (k in c.ttl ==> after.ttl[k] == c.ttl[k]))
  {
    PlanOfDistinct(e, stars, key, now);
    PlanOfReady(c, e, stars, key, now);
    PlanEffects(c, PlanOf(e, stars, key, now), ns, nc, nb);
    FastWriteRunsPlan(c, e, stars, key, now, PipelineLength);
  }

  /** However many commands reach Redis and whatever it answers, the pipeline leaves every key outside its plan alone. */
  lemma FastWriteTouchesOnlyItsKeys(c: Cache, e: Rating, stars: int, key: string, now: int, sent: nat, k: string)
    requires Outside(PlanOf(e, stars, key, now), k)
    ensures var after := FastWriteToCache(c, e, stars, key, now, sent);
      (k in after.data <==> k in c.data) && (k in c.data ==> after.data[k] == c.data[k])
  {
    var p := PlanOf(e, stars, key, now);
    var n := if sent >= PipelineLength then PipelineLength else sent;
    PlanTouchesOnly(c, p, n, k);
    assert PlanOps(p)[..PipelineLength] == PlanOps(p);
  }

  // ---------------------------------------------------------------------
  // Jobs, read-back and response
  // ---------------------------------------------------------------------

  /** `Math.floor(Math.random() * 2000)`. */
  function WriteDelay(random: real): (d: int)
    requires 0.0 <= random < 1.0
    ensures 0 <= d <= 1999
  {
    (random * 2000.0).Floor
  }

  function BatchWriteOptions(random: real): JobOptions
    requires 0.0 <= random < 1.0
  {
    JobOptions(Some(WriteDelay(random) as real), Some(3), Some(5), Some(100), Some(50))
  }

  const UpdateStatsOptions: JobOptions := JobOptions(Some(3000.0), Some(2), None, None, None)

  /**
   * `queueBackgroundJobs`: the batch-write job, then the stats job. When the
   * second enqueue fails the first job stays enqueued.
   */
  function QueueBackgroundJobs(jobs: seq<Job>, e: Rating, stars: int, env: IntakeEnv)
    : (r: (seq<Job>, Option<IntakeError>))
    requires 0.0 <= env.random < 1.0
    ensures r.1.None? <==> env.writeQueueUp && env.statsQueueUp
    ensures !env.writeQueueUp ==> r.0 == jobs
    ensures env.writeQueueUp ==> |r.0| >= |jobs| + 1 && r.0[..|jobs|] == jobs
  {
    match AddJobWithOptions(jobs, "rating-writes", "batch-write", RatingRef(e.id), BatchWriteOptions(env.random), env.writeQueueUp)
    case Failure(err) => (jobs, Some(EnqueueFailed(err)))
    case Success(j1) =>
      match AddJobWithOptions(j1, "rating-stats", "update-stats", StatsUpdate(e.movieId, stars), UpdateStatsOptions, env.statsQueueUp)
      case Failure(err) => (j1, Some(EnqueueFailed(err)))
      case Success(j2) => (j2, None)
  }

  /**
   * `getEstimatedStats`: both counters read through `get`; a missing,
   * unreadable or unparsable one counts as 0, and the average is 0 unless
   * the count is positive.
   */
  function GetEstimatedStats(c: Cache, movieId: string, up: bool): (r: EstimatedStats)
    ensures r.totalRatings == CountOf(Get(c, CountKey(movieId), up))
    ensures IsAverage(r.averageRating, SumOf(Get(c, SumKey(movieId), up)), r.totalRatings)
  {
    var sum := SumOf(Get(c, SumKey(movieId), up));
    var count := CountOf(Get(c, CountKey(movieId), up));
    EstimatedStats(Average(sum, count), count)
  }

  /** `avg` is `sum / count`, or 0 when the count is not positive. */
  predicate IsAverage(avg: real, sum: real, count: int) {
    if count > 0 then avg * count as real == sum else avg == 0.0
  }

  /** `count > 0 ? sum / count : 0`. */
  function Average(sum: real, count: int): (a: real)
    ensures IsAverage(a, sum, count)
  {
    if count > 0 then
      var a := sum / count as real;
      assert a * count as real == sum;
      a
    else 0.0
  }

  /** `buildResponse`. */
  function BuildResponse(e: Rating, stats: EstimatedStats): (r: RatingResponse)
    ensures r.id == e.id && r.movieId == e.movieId && r.rating == e.rating && r.createdAt == e.createdAt
    ensures r.averageRating == stats.averageRating && r.totalRatings == stats.totalRatings
  {
    RatingResponse(e.id, e.movieId, e.rating, e.createdAt, stats.averageRating, stats.totalRatings)
  }

  // ---------------------------------------------------------------------
  // execute
  // ---------------------------------------------------------------------

  /**
   * `execute`. The world after the call (what was written stays written
   * when a later step throws) and the response or the error.
   */
  function Execute(w: World, dto: CreateRatingDto, env: IntakeEnv): (r: (World, Result<RatingResponse, IntakeError>))
    requires 0.0 <= env.random < 1.0
    ensures NewRatingValue(dto.rating).Failure? ==> r == (w, Failure(InvalidRating))
    ensures NewRatingValue(dto.rating).Success? && NewSessionIdentifier(dto.sessionId, dto.userId, dto.ipAddress).Failure? ==>
      r == (w, Failure(MissingIdentifier))
    ensures r.0.store == w.store
    ensures |r.0.jobs| >= |w.jobs| && r.0.jobs[..|w.jobs|] == w.jobs
    ensures r.1.Success? ==> |r.0.jobs| == |w.jobs| + 2
  {
    match NewRatingValue(dto.rating)
    case Failure(_) => (w, Failure(InvalidRating))
    case Success(rv) =>
      match NewSessionIdentifier(dto.sessionId, dto.userId, dto.ipAddress)
      case Failure(_) => (w, Failure(MissingIdentifier))
      case Success(ident) => Proceed(w, dto, rv, ident, env)
  }

  /** `execute` once both value objects have been built. */
  function Proceed(w: World, dto: CreateRatingDto, rv: RatingValue, ident: SessionIdentifier, env: IntakeEnv)
    : (r: (World, Result<RatingResponse, IntakeError>))
    requires 0.0 <= env.random < 1.0
    ensures r.0.store == w.store
    ensures |r.0.jobs| >= |w.jobs| && r.0.jobs[..|w.jobs|] == w.jobs
    ensures r.1.Success? ==> |r.0.jobs| == |w.jobs| + 2
  {
    var dup := CheckDuplicateRating(w.cache, w.store, dto.movieId, ident, env);
    if dup.1.Some? then (w.(cache := dup.0), Failure(dup.1.value))
    else
      var e := NewRatingEntity(dto, rv, env);
      var key := DuplicateKey(dto.movieId, ident);
      var c1 := FastWriteToCache(w.cache, e, rv.Stars(), key, env.now, env.sent);
      var queued := QueueBackgroundJobs(w.jobs, e, rv.Stars(), env);
      if queued.1.Some? then (World(c1, w.store, queued.0), Failure(queued.1.value))
      else
        (World(c1, w.store, queued.0), Success(BuildResponse(e, GetEstimatedStats(c1, dto.movieId, env.readBackUp))))
  }

  /** The rating and the identity `execute` accepts. */
  predicate Accepted(dto: CreateRatingDto) {
    NewRatingValue(dto.rating).Success? && NewSessionIdentifier(dto.sessionId, dto.userId, dto.ipAddress).Success?
  }

  function IdentOf(dto: CreateRatingDto): SessionIdentifier {
    SessionIdentifier(dto.sessionId, dto.userId, dto.ipAddress)
  }

  /** A marker in the cache refuses the rating without asking the database and without any write. */
  lemma MarkerRefuses(w: World, dto: CreateRatingDto, env: IntakeEnv)
    requires 0.0 <= env.random < 1.0
    requires Accepted(dto)
    requires Exists(w.cache, DuplicateKey(dto.movieId, IdentOf(dto)), env.markerCheckUp)
    ensures Execute(w, dto, env) == (w, Failure(DuplicateRating(dto.movieId)))
    ensures forall s: Store, db: bool :: Execute(w.(store := s), dto, env.(dbUp := db)) == (w.(store := s), Failure(DuplicateRating(dto.movieId)))
  {
  }

  /**
   * A duplicate found only in the database sets the marker for an hour and
   * refuses; the same submission is then refused by the marker alone.
   */
  lemma DatabaseDuplicateSetsMarker(w: World, dto: CreateRatingDto, env: IntakeEnv)
    requires 0.0 <= env.random < 1.0
    requires Accepted(dto) && env.markerCheckUp && env.markerSetUp && env.dbUp
    requires !Exists(w.cache, DuplicateKey(dto.movieId, IdentOf(dto)), true)
    requires FindDuplicate(w.store, dto.movieId, IdentOf(dto))
    ensures var r := Execute(w, dto, env);
      var key := DuplicateKey(dto.movieId, IdentOf(dto));
      && r.1 == Failure(DuplicateRating(dto.movieId))
      && r.0 == w.(cache := Set(w.cache, key, JStr("exists"), MarkerTtlSeconds, true))
      && Get(r.0.cache, key, true) == Some(JStr("exists")) && r.0.cache.ttl[key] == MarkerTtlSeconds
      && Execute(r.0, dto, env) == (r.0, Failure(DuplicateRating(dto.movieId)))
  {
    var key := DuplicateKey(dto.movieId, IdentOf(dto));
    GetAfterSet(w.cache, key, JStr("exists"), MarkerTtlSeconds);
    MarkerRefuses(Execute(w, dto, env).0, dto, env);
  }

  /** The entity, the stars and the marker key of an accepted request. */
  function EntityOf(dto: CreateRatingDto, env: IntakeEnv): Rating
    requires Accepted(dto)
  {
    NewRatingEntity(dto, NewRatingValue(dto.rating).value, env)
  }

  function StarsOf(dto: CreateRatingDto): (s: int)
    requires Accepted(dto)
    ensures 1 <= s <= 5 && s as real == dto.rating.v
  {
    NewRatingValue(dto.rating).value.Stars()
  }

  /** The request gets past the duplicate check. */
  predicate NotDuplicate(w: World, dto: CreateRatingDto, env: IntakeEnv)
    requires Accepted(dto)
  {
    CheckDuplicateRating(w.cache, w.store, dto.movieId, IdentOf(dto), env).1.None?
  }

  /**
   * An accepted, non-duplicate rating gets the pipeline written, whether or
   * not the pipeline reached Redis: the outcome depends only on the queues,
   * never on the cache write.
   */
  lemma CacheFailureSwallowed(w: World, dto: CreateRatingDto, env: IntakeEnv, sent: nat)
    requires 0.0 <= env.random < 1.0
    requires Accepted(dto) && NotDuplicate(w, dto, env)
    ensures Execute(w, dto, env).1.Success? <==> env.writeQueueUp && env.statsQueueUp
    ensures Execute(w, dto, env).1.Success? <==> Execute(w, dto, env.(sent := sent)).1.Success?
    ensures Execute(w, dto, env).0.cache
      == FastWriteToCache(w.cache, EntityOf(dto, env), StarsOf(dto), DuplicateKey(dto.movieId, IdentOf(dto)), env.now, env.sent)
  {
  }

  /**
   * Exactly two jobs are added on success: `batch-write` on `rating-writes`
   * for the new id with a delay from 0 to 1999 ms, 3 attempts and priority
   * 5; then `update-stats` on `rating-stats` with the movie and the stars,
   * a 3000 ms delay and 2 attempts.
   */
  lemma EnqueuedJobs(w: World, dto: CreateRatingDto, env: IntakeEnv)
    requires 0.0 <= env.random < 1.0
    requires Execute(w, dto, env).1.Success?
    ensures Accepted(dto)
    ensures var jobs := Execute(w, dto, env).0.jobs;
      var b := jobs[|w.jobs|];
      var s := jobs[|w.jobs| + 1];
      && b.queue == RatingWrites && b.name == "batch-write" && b.payload == RatingRef(env.newId)
      && b.delay.Some? && 0.0 <= b.delay.value <= 1999.0 && IsInteger(b.delay.value)
      && b.attempts == Some(3) && b.priority == Some(5)
      && b.removeOnComplete == Some(100) && b.removeOnFail == Some(50)
      && s.queue == RatingStats && s.name == "update-stats" && s.payload == StatsUpdate(dto.movieId, StarsOf(dto))
      && s.delay == Some(3000.0) && s.attempts == Some(2)
  {
    var d := WriteDelay(env.random);
    assert (d as real).Floor == d;
  }

  /**
   * The response copies the new rating's id, movie, value and creation
   * time, and reports the counters as read back after the write.
   */
  lemma ResponseFields(w: World, dto: CreateRatingDto, env: IntakeEnv)
    requires 0.0 <= env.random < 1.0
    requires Execute(w, dto, env).1.Success?
    ensures Accepted(dto)
    ensures var r := Execute(w, dto, env);
      var resp := r.1.value;
      && resp.id == env.newId && resp.movieId == dto.movieId
      && resp.rating == dto.rating.v && resp.createdAt == Fin(env.now as real)
      && resp.totalRatings == CountOf(Get(r.0.cache, CountKey(dto.movieId), env.readBackUp))
      && IsAverage(resp.averageRating, SumOf(Get(r.0.cache, SumKey(dto.movieId), env.readBackUp)), resp.totalRatings)
  {
  }

  /**
   * With the whole pipeline delivered to counters of the right type, the
   * response reports one rating more than before and the average that
   * includes the new stars.
   */
  lemma ReadBackIncludesNewRating(w: World, dto: CreateRatingDto, env: IntakeEnv, ns: int, nc: int, nb: int)
    requires 0.0 <= env.random < 1.0
    requires Accepted(dto) && NotDuplicate(w, dto, env)
    requires env.writeQueueUp && env.statsQueueUp && env.readBackUp && env.sent >= PipelineLength
    requires ReadyFor(w.cache, env.newId)
    requires CounterAt(w.cache, SumKey(dto.movieId)) == Some(ns) && CounterAt(w.cache, CountKey(dto.movieId)) == Some(nc)
    requires CounterAt(w.cache, BucketKey(dto.movieId, StarsOf(dto))) == Some(nb)
    ensures var resp := Execute(w, dto, env).1;
      && resp.Success?
      && resp.value.totalRatings == nc + 1
      && IsAverage(resp.value.averageRating, (ns + StarsOf(dto)) as real, nc + 1)
  {
    var e := EntityOf(dto, env);
    var key := DuplicateKey(dto.movieId, IdentOf(dto));
    assert IsMarkerKey(key) by { assert key[0] == 'd'; }
    CacheFailureSwallowed(w, dto, env, env.sent);
    var r := Execute(w, dto, env);
    ResponseFields(w, dto, env);
    CountersReadBack(w.cache, e, StarsOf(dto), key, env.now, env.sent, ns, nc, nb);
    var count := CountOf(Get(r.0.cache, CountKey(dto.movieId), true));
    var sum := SumOf(Get(r.0.cache, SumKey(dto.movieId), true));
    assert count == nc + 1 && sum == (ns + StarsOf(dto)) as real;
    assert r.1.value.totalRatings == count;
    assert IsAverage(r.1.value.averageRating, sum, count);
  }

  /** After the whole pipeline, reading the count and the sum back gives the counters one rating on. */
  lemma CountersReadBack(c: Cache, e: Rating, stars: int, key: string, now: int, sent: nat, ns: int, nc: int, nb: int)
    requires sent >= PipelineLength && ReadyFor(c, e.id) && IsMarkerKey(key)
    requires CounterAt(c, SumKey(e.movieId)) == Some(ns) && CounterAt(c, CountKey(e.movieId)) == Some(nc)
    requires CounterAt(c, BucketKey(e.movieId, stars)) == Some(nb)
    ensures var after := FastWriteToCache(c, e, stars, key, now, sent);
      && CountOf(Get(after, CountKey(e.movieId), true)) == nc + 1
      && SumOf(Get(after, SumKey(e.movieId), true)) == (ns + stars) as real
  {
    var after := FastWriteToCache(c, e, stars, key, now, sent);
    FastWriteRunsPlan(c, e, stars, key, now, sent);
    FastWriteRunsPlan(c, e, stars, key, now, PipelineLength);
    FastWriteCounters(c, e, stars, key, now, ns, nc, nb);
    ReadCounter(after, CountKey(e.movieId), true);
    ReadCounter(after, SumKey(e.movieId), true);
  }
}
