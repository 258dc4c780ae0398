/**
 * The rating write path end to end: what a run of intakes leaves in the
 * movie's counters, and what the two writers (the delayed single write and
 * the periodic drain) make of an entry that intake left behind.
 *
 * Each step is one of the transitions modelled in `RatingIntake` and
 * `BatchWriter`; the lemmas here compose them in sequence.
 */
module Pipeline {
  import opened Wrappers
  import opened Text
  import opened JsNumber
  import opened JsonText
  import opened CacheStore
  import opened PendingCodec
  import opened DurableStore
  import opened RatingKeys
  import opened RatingIntake
  import BW = BatchWriter

  // ---------------------------------------------------------------------
  // A run of intakes on one movie
  // ---------------------------------------------------------------------

  /** One delivered pipeline of `fastWriteToCache`: the new rating, its stars, its marker key and the clock. */
  datatype Write = Write(e: Rating, stars: int, key: string, now: int)

  /** The cache after the whole pipeline of each write, in order. */
  function WriteAll(c: Cache, ws: seq<Write>): Cache
    decreases |ws|
  {
    if ws == [] then c
    else WriteAll(FastWriteToCache(c, ws[0].e, ws[0].stars, ws[0].key, ws[0].now, PipelineLength), ws[1..])
  }

  /** The stars of all writes. */
  function StarsSum(ws: seq<Write>): int
    decreases |ws|
  {
    if ws == [] then 0 else ws[0].stars + StarsSum(ws[1..])
  }

  /** How many writes give `s` stars. */
  function StarsCount(ws: seq<Write>, s: int): nat
    decreases |ws|
  {
    if ws == [] then 0 else (if ws[0].stars == s then 1 else 0) + StarsCount(ws[1..], s)
  }

  /** Ratings of 1 to 5 stars for movie `m`, each with a `dup:` marker key. */
  predicate ForMovie(ws: seq<Write>, m: string) {
    forall i :: 0 <= i < |ws| ==> ws[i].e.movieId == m && IsMarkerKey(ws[i].key) && 1 <= ws[i].stars <= 5
  }

  /** Every write has a fresh rating id, none used twice, and the pending key holds a list. */
  predicate FreshIds(c: Cache, ws: seq<Write>) {
    && (forall i :: 0 <= i < |ws| ==> ReadyFor(c, ws[i].e.id))
    && (forall i, j :: 0 <= i < j < |ws| ==> ws[i].e.id != ws[j].e.id)
  }

  /** The sum, the count and the five buckets of `m` hold integers (or are missing, which reads as 0). */
  predicate CountersTyped(c: Cache, m: string) {
    && CounterAt(c, SumKey(m)).Some? && CounterAt(c, CountKey(m)).Some?
    && forall s :: 1 <= s <= 5 ==> CounterAt(c, BucketKey(m, s)).Some?
  }

  /** Two different rating ids have different hash keys, and a hash key is none of a plan's other keys. */
  lemma HashKeyOutside(e: Rating, stars: int, key: string, now: int, id: string)
    requires id != e.id && IsMarkerKey(key)
    ensures Outside(PlanOf(e, stars, key, now), RatingHashKey(id))
  {
    assert RatingHashKey(id)[|"rating:"|..] == id && RatingHashKey(e.id)[|"rating:"|..] == e.id;
    WriteKeysDistinct(id, key);
    KeyKindsDistinct(e.movieId, "rating_sum", id, "", "");
    KeyKindsDistinct(e.movieId, "rating_count", id, "", "");
    KeyKindsDistinct(e.movieId, BucketField(stars), id, "", "");
  }

  /** After a delivered pipeline the pending key holds a list. */
  lemma WriteLeavesList(c: Cache, w: Write, ns: int, nc: int, nb: int)
    requires ReadyFor(c, w.e.id) && IsMarkerKey(w.key)
    requires CountersHold(c, PlanOf(w.e, w.stars, w.key, w.now), ns, nc, nb)
    ensures var after := FastWriteToCache(c, w.e, w.stars, w.key, w.now, PipelineLength);
      PendingKey in after.data && after.data[PendingKey].List?
  {
    var p := PlanOf(w.e, w.stars, w.key, w.now);
    PlanOfDistinct(w.e, w.stars, w.key, w.now);
    PlanOfReady(c, w.e, w.stars, w.key, w.now);
    PlanRuns(c, p, ns, nc, nb);
    FastWriteRunsPlan(c, w.e, w.stars, w.key, w.now, PipelineLength);
  }

  /** One delivered pipeline on movie `m`: the counters it moves, the ones it leaves, and the ids still fresh. */
  lemma OneWrite(c: Cache, w: Write, m: string)
    requires ForMovie([w], m) && ReadyFor(c, w.e.id) && CountersTyped(c, m)
    ensures var after := FastWriteToCache(c, w.e, w.stars, w.key, w.now, PipelineLength);
      && CountersTyped(after, m)
      && CounterAt(after, SumKey(m)).value == CounterAt(c, SumKey(m)).value + w.stars
      && CounterAt(after, CountKey(m)).value == CounterAt(c, CountKey(m)).value + 1
      && (forall s :: 1 <= s <= 5 ==>
            CounterAt(after, BucketKey(m, s)).value == CounterAt(c, BucketKey(m, s)).value + (if s == w.stars then 1 else 0))
      && CounterAt(after, RecentKey(m)) == CounterAt(c, RecentKey(m))
      && (forall id :: id != w.e.id && ReadyFor(c, id) ==> ReadyFor(after, id))
  {
    assert [w][0] == w;
    var after := FastWriteToCache(c, w.e, w.stars, w.key, w.now, PipelineLength);
    var ns := CounterAt(c, SumKey(m)).value;
    var nc := CounterAt(c, CountKey(m)).value;
    var nb := CounterAt(c, BucketKey(m, w.stars)).value;
    FastWriteCounters(c, w.e, w.stars, w.key, w.now, ns, nc, nb);
    forall s | 1 <= s <= 5 && s != w.stars
      ensures CounterAt(after, BucketKey(m, s)) == CounterAt(c, BucketKey(m, s))
    {
      BucketFieldDistinct(s, w.stars);
      FastWriteKeepsOtherCounters(c, w.e, w.stars, w.key, w.now, PipelineLength, BucketField(s));
    }
    BucketFieldDistinct(w.stars, w.stars);
    FastWriteKeepsOtherCounters(c, w.e, w.stars, w.key, w.now, PipelineLength, "recent_count");
    WriteLeavesList(c, w, ns, nc, nb);
    forall id | id != w.e.id && ReadyFor(c, id) ensures ReadyFor(after, id) {
      HashKeyOutside(w.e, w.stars, w.key, w.now, id);
      FastWriteTouchesOnlyItsKeys(c, w.e, w.stars, w.key, w.now, PipelineLength, RatingHashKey(id));
    }
  }

  /** The writes after the first stay fresh in a cache whose other ids stay ready. */
  lemma TailStillFresh(c: Cache, c1: Cache, ws: seq<Write>, m: string)
    requires ws != [] && ForMovie(ws, m) && FreshIds(c, ws)
    requires forall id :: id != ws[0].e.id && ReadyFor(c, id) ==> ReadyFor(c1, id)
    ensures ForMovie(ws[1..], m) && FreshIds(c1, ws[1..])
  {
    var rest := ws[1..];
    forall i | 0 <= i < |rest| ensures ReadyFor(c1, rest[i].e.id) {
      assert rest[i] == ws[i + 1];
    }
    forall i, j | 0 <= i < j < |rest| ensures rest[i].e.id != rest[j].e.id {
      assert rest[i] == ws[i + 1] && rest[j] == ws[j + 1];
    }
    forall i | 0 <= i < |rest| ensures rest[i] == ws[i + 1] { }
  }

  /**
   * Over any run of accepted intakes on one movie whose pipelines reach
   * Redis in full, the sum grows by exactly the stars given, the count by
   * the number of ratings, each bucket by the ratings of its stars, and
   * `recent_count` never moves.
   */
  lemma {:induction false} CountersAfterIntakes(c: Cache, ws: seq<Write>, m: string)
    requires ForMovie(ws, m) && FreshIds(c, ws) && CountersTyped(c, m)
    ensures CountersTyped(WriteAll(c, ws), m)
    ensures CounterAt(WriteAll(c, ws), SumKey(m)).value == CounterAt(c, SumKey(m)).value + StarsSum(ws)
    ensures CounterAt(WriteAll(c, ws), CountKey(m)).value == CounterAt(c, CountKey(m)).value + |ws|
    ensures forall s :: 1 <= s <= 5 ==>
      CounterAt(WriteAll(c, ws), BucketKey(m, s)).value == CounterAt(c, BucketKey(m, s)).value + StarsCount(ws, s)
    ensures CounterAt(WriteAll(c, ws), RecentKey(m)) == CounterAt(c, RecentKey(m))
    decreases |ws|
  {
    if ws != [] {
      var w := ws[0];
      var rest := ws[1..];
      assert [w][0] == ws[0];
      OneWrite(c, w, m);
      var c1 := FastWriteToCache(c, w.e, w.stars, w.key, w.now, PipelineLength);
      TailStillFresh(c, c1, ws, m);
      CountersAfterIntakes(c1, rest, m);
    }
  }

  // ---------------------------------------------------------------------
  // From intake to the database
  // ---------------------------------------------------------------------

  /**
   * The validator on any raw rating whose id and movie are non-empty text,
   * whose rating reads as 1 to 5 stars and whose timestamp reads as an
   * integer: it passes with those values.
   */
  lemma ValidateOf(raw: BW.RawRating, id: string, movieId: string, rv: JsonValue, stars: int, tv: JsonValue, ts: int, now: int)
    requires id != "" && movieId != "" && 1 <= stars <= 5
    requires BW.Field(raw, "id") == Some(JStr(id)) && BW.Field(raw, "movieId") == Some(JStr(movieId))
    requires BW.Field(raw, "rating") == Some(rv) && BW.TruthyValue(Some(rv)) && ParseFloat(BW.ToText(rv)) == Fin(stars as real)
    requires BW.Field(raw, "timestamp") == Some(tv) && BW.TruthyValue(Some(tv)) && ParseInt(BW.ToText(tv)) == Fin(ts as real)
    requires BW.TextOrNull(BW.OrNull(BW.Field(raw, "sessionId"))) && BW.TextOrNull(BW.OrNull(BW.Field(raw, "userId")))
    requires BW.TextOrNull(BW.OrNull(BW.Field(raw, "ipAddress"))) && BW.TextOrNull(BW.OrNull(BW.Field(raw, "userAgent")))
    ensures var v := BW.Validate(raw, now);
      && v.Success?
      && v.value.id == JStr(id) && v.value.movieId == JStr(movieId)
      && v.value.rating == stars as real && v.value.createdAt == Fin(ts as real)
      && BW.Storable(v.value)
  {
    var v := BW.Validate(raw, now);
    assert v.Success?;
    assert BW.CreatedAt(raw, now) == Fin(ts as real);
  }

  /** Every member of the object is text, except those named `rating` or `timestamp`. */
  predicate NumbersNamed(ms: JsonObject) {
    forall i :: 0 <= i < |ms| ==> ms[i].1.JStr? || ms[i].0 == "rating" || ms[i].0 == "timestamp"
  }

  lemma NumbersNamedAppend(a: JsonObject, b: JsonObject)
    requires NumbersNamed(a) && NumbersNamed(b)
    ensures NumbersNamed(a + b)
  {
    forall i | 0 <= i < |a + b| ensures (a + b)[i].1.JStr? || (a + b)[i].0 == "rating" || (a + b)[i].0 == "timestamp" {
      if i >= |a| {
        assert (a + b)[i] == b[i - |a|];
      }
    }
  }

  /** Intake writes numbers only under `rating` and `timestamp`. */
  lemma MembersNumbersNamed(p: PendingEntry)
    ensures NumbersNamed(Members(p))
  {
    var front: JsonObject := [("id", JStr(p.id)), ("movieId", JStr(p.movieId)), ("rating", JInt(p.rating))];
    var m1 := OptMember("sessionId", p.sessionId);
    var m2 := OptMember("userId", p.userId);
    var m3 := OptMember("ipAddress", p.ipAddress);
    var m4 := OptMember("userAgent", p.userAgent);
    var back: JsonObject := [("timestamp", JInt(p.timestamp))];
    assert NumbersNamed(front) && NumbersNamed(back);
    assert NumbersNamed(m1) && NumbersNamed(m2) && NumbersNamed(m3) && NumbersNamed(m4);
    NumbersNamedAppend(front, m1);
    NumbersNamedAppend(front + m1, m2);
    NumbersNamedAppend(front + m1 + m2, m3);
    NumbersNamedAppend(front + m1 + m2 + m3, m4);
    NumbersNamedAppend(front + m1 + m2 + m3 + m4, back);
  }

  /** In such an object a property of any other name is text or undefined. */
  lemma OtherIsText(ms: JsonObject, name: string)
    requires NumbersNamed(ms) && name != "rating" && name != "timestamp"
    ensures BW.TextOrNull(BW.OrNull(Lookup(ms, name)))
  {
    var r := Lookup(ms, name);
    if r.Some? {
      var i :| 0 <= i < |ms| && ms[i] == (name, r.value);
    }
  }

  /** The properties of the entry intake pushed, as the drain reads them. */
  lemma EntryFields(p: PendingEntry)
    ensures var raw := BW.FromEntry(Members(p));
      && BW.Field(raw, "id") == Some(JStr(p.id)) && BW.Field(raw, "movieId") == Some(JStr(p.movieId))
      && BW.Field(raw, "rating") == Some(JInt(p.rating)) && BW.Field(raw, "timestamp") == Some(JInt(p.timestamp))
      && BW.TextOrNull(BW.OrNull(BW.Field(raw, "sessionId"))) && BW.TextOrNull(BW.OrNull(BW.Field(raw, "userId")))
      && BW.TextOrNull(BW.OrNull(BW.Field(raw, "ipAddress"))) && BW.TextOrNull(BW.OrNull(BW.Field(raw, "userAgent")))
  {
    DecodeEncode(p);
    MembersNumbersNamed(p);
    OtherIsText(Members(p), "sessionId");
    OtherIsText(Members(p), "userId");
    OtherIsText(Members(p), "ipAddress");
    OtherIsText(Members(p), "userAgent");
  }

  /**
   * The drain's validator takes what intake pushed: the rating's id, movie,
   * stars and timestamp, with values the rating table accepts.
   */
  lemma EntryValidates(p: PendingEntry, now: int)
    requires p.id != "" && p.movieId != "" && 1 <= p.rating <= 5 && p.timestamp > 0
    ensures var v := BW.Validate(BW.FromEntry(Members(p)), now);
      && v.Success?
      && v.value.id == JStr(p.id) && v.value.movieId == JStr(p.movieId)
      && v.value.rating == p.rating as real && v.value.createdAt == Fin(p.timestamp as real)
      && BW.Storable(v.value)
  {
    EntryFields(p);
    ParseFloatRoundTrip(p.rating);
    ParseIntRoundTrip(p.timestamp);
    ValidateOf(BW.FromEntry(Members(p)), p.id, p.movieId, JInt(p.rating), p.rating, JInt(p.timestamp), p.timestamp, now);
  }

  /** An entry whose hash is not flagged is accepted, and one whose hash is flagged is skipped. */
  lemma EntryJudged(c: Cache, p: PendingEntry, hgetUp: bool, now: int)
    requires p.id != "" && p.movieId != "" && 1 <= p.rating <= 5 && p.timestamp > 0
    ensures var v := BW.Judge(c, Encode(p), hgetUp, now);
      && (HGet(c, RatingHashKey(p.id), "persisted", hgetUp) == Some("1") <==> v == BW.AlreadyPersisted)
      && (HGet(c, RatingHashKey(p.id), "persisted", hgetUp) != Some("1") ==>
            && v.Accept? && v.rating.id == JStr(p.id) && BW.Storable(v.rating)
            && v.rating.movieId == JStr(p.movieId) && v.rating.rating == p.rating as real
            && v.rating.createdAt == Fin(p.timestamp as real))
  {
    DecodeEncode(p);
    assert BW.IdText(Lookup(Members(p), "id")) == p.id;
    EntryValidates(p, now);
  }

  /** A window of a single entry is judged as that entry is. */
  lemma AcceptedSingle(c: Cache, entry: string, hgetUp: bool, now: int)
    ensures var v := BW.Judge(c, entry, hgetUp, now);
      BW.Accepted(c, [entry], hgetUp, now) == if v.Accept? then [v.rating] else []
  {
    assert [entry][..0] == [];
  }

  /** A drain over a list holding one acceptable entry inserts it. */
  lemma DrainOneAccepted(c: Cache, s: Store, entry: string, denv: BW.DrainEnv)
    requires ListAt(c, PendingKey) == [entry] && denv.lrangeUp && denv.dbUp
    requires BW.Judge(c, entry, denv.hgetUp, denv.now).Accept?
    requires BW.Storable(BW.Judge(c, entry, denv.hgetUp, denv.now).rating)
    ensures var r := BW.Judge(c, entry, denv.hgetUp, denv.now).rating;
      var t := BW.Drain(c, s, denv).1.ratings;
      && r.id.s in t
      && t.Keys == s.ratings.Keys + {r.id.s}
      && (r.id.s !in s.ratings ==> t[r.id.s] == BW.RowOf(r, denv.now))
  {
    var r := BW.Judge(c, entry, denv.hgetUp, denv.now).rating;
    DrainOfOne(c, s, entry, denv, r);
    InsertedOne(BW.Drain(c, s, denv).1.ratings, s.ratings, r, denv.now);
  }

  /** The drain of a list holding one acceptable entry inserts a batch of that one rating. */
  lemma DrainOfOne(c: Cache, s: Store, entry: string, denv: BW.DrainEnv, r: BW.RatingToInsert)
    requires ListAt(c, PendingKey) == [entry] && denv.lrangeUp && denv.dbUp
    requires BW.Judge(c, entry, denv.hgetUp, denv.now) == BW.Accept(r) && BW.Storable(r)
    ensures BW.AllStorable([r]) && BW.InsertedAsRows(BW.Drain(c, s, denv).1.ratings, s.ratings, [r], denv.now)
  {
    assert BW.AllStorable([r]) by {
      assert [r][0] == r;
    }
    assert [r] == BW.Accepted(c, BW.Window(c, denv.lrangeUp), denv.hgetUp, denv.now) by {
      WindowOfOne(c, entry, denv, r);
    }
    BW.DrainInserts(c, s, denv, [r]);
  }

  /** The window of a list holding one acceptable entry accepts that entry's rating alone. */
  lemma WindowOfOne(c: Cache, entry: string, denv: BW.DrainEnv, r: BW.RatingToInsert)
    requires ListAt(c, PendingKey) == [entry] && denv.lrangeUp
    requires BW.Judge(c, entry, denv.hgetUp, denv.now) == BW.Accept(r)
    ensures BW.Accepted(c, BW.Window(c, denv.lrangeUp), denv.hgetUp, denv.now) == [r]
  {
    BW.WindowIsHead(c);
    assert BW.Window(c, denv.lrangeUp) == [entry];
    AcceptedSingle(c, entry, denv.hgetUp, denv.now);
  }

  /** A batch of one rating inserted: its id is the only one added, and it is stored as its row if the id was new. */
  lemma InsertedOne(t: map<string, RatingRow>, before: map<string, RatingRow>, r: BW.RatingToInsert, now: int)
    requires BW.Storable(r) && BW.InsertedAsRows(t, before, [r], now)
    ensures r.id.s in t && t.Keys == before.Keys + {r.id.s}
    ensures r.id.s !in before ==> t[r.id.s] == BW.RowOf(r, now)
  {
    forall x | x in BW.InsertIds([r]) ensures x == r.id.s {
      var i :| 0 <= i < |[r]| && [r][i].id.s == x;
    }
    assert [r][0].id.s in BW.InsertIds([r]);
    assert BW.FirstOfId([r], 0);
  }

  /**
   * A drain over a list holding one already-flagged entry leaves the table
   * as it is, and takes the entry off the list when its `lrem` reaches Redis.
   */
  lemma DrainOneSkipped(c: Cache, s: Store, entry: string, denv: BW.DrainEnv)
    requires ListAt(c, PendingKey) == [entry]
    requires BW.Judge(c, entry, denv.hgetUp, denv.now) == BW.AlreadyPersisted
    ensures BW.Drain(c, s, denv).1 == s
    ensures denv.lrangeUp && denv.removeSent >= 1 ==> ListAt(BW.Drain(c, s, denv).0, PendingKey) == []
  {
    BW.WindowIsHead(c);
    AcceptedSingle(c, entry, denv.hgetUp, denv.now);
    if denv.lrangeUp && denv.removeSent >= 1 {
      assert BW.Window(c, true) == [entry];
      assert BW.Drain(c, s, denv).0 == RunAll(c, BW.RemoveOps([entry])).0;
      BW.RemoveHeadEntries(c, [entry]);
    }
  }

  /** The situation both end-to-end lemmas start from: an accepted, non-duplicate rating and a fully delivered pipeline. */
  predicate IntakeWrites(w: World, dto: CreateRatingDto, env: IntakeEnv, ns: int, nc: int, nb: int) {
    && 0.0 <= env.random < 1.0
    && Accepted(dto) && NotDuplicate(w, dto, env)
    && env.sent >= PipelineLength && ReadyFor(w.cache, env.newId)
    && env.newId != "" && dto.movieId != "" && env.now > 0
    && CounterAt(w.cache, SumKey(dto.movieId)) == Some(ns) && CounterAt(w.cache, CountKey(dto.movieId)) == Some(nc)
    && CounterAt(w.cache, BucketKey(dto.movieId, StarsOf(dto))) == Some(nb)
  }

  /** What intake leaves in the cache, whether or not its jobs were enqueued. */
  lemma IntakeLeaves(w: World, dto: CreateRatingDto, env: IntakeEnv, ns: int, nc: int, nb: int)
    requires IntakeWrites(w, dto, env, ns, nc, nb)
    ensures var c1 := Execute(w, dto, env).0.cache;
      var e := EntityOf(dto, env);
      var p := PendingOf(e, StarsOf(dto), env.now);
      && e.id == env.newId && e.movieId == dto.movieId && 1 <= StarsOf(dto) <= 5
      && p.id != "" && p.movieId != "" && 1 <= p.rating <= 5 && p.timestamp > 0
      && ListAt(c1, PendingKey) == [Encode(p)] + ListAt(w.cache, PendingKey)
      && RatingHashKey(e.id) in c1.data && c1.data[RatingHashKey(e.id)] == Hash(HashFields(e, StarsOf(dto), env.now))
  {
    var e := EntityOf(dto, env);
    var key := DuplicateKey(dto.movieId, IdentOf(dto));
    assert IsMarkerKey(key) by { assert key[0] == 'd'; }
    CacheFailureSwallowed(w, dto, env, env.sent);
    FastWriteRunsPlan(w.cache, e, StarsOf(dto), key, env.now, env.sent);
    FastWriteRunsPlan(w.cache, e, StarsOf(dto), key, env.now, PipelineLength);
    FastWriteEffects(w.cache, e, StarsOf(dto), key, env.now, ns, nc, nb);
  }

  /**
   * A rating accepted by intake onto an empty pending list is in the rating
   * table after the next drain cycle, whether or not intake's own jobs were
   * enqueued: the cache write comes before the enqueues.
   */
  lemma IntakeThenDrainPersists(w: World, dto: CreateRatingDto, env: IntakeEnv, ns: int, nc: int, nb: int, denv: BW.DrainEnv)
    requires IntakeWrites(w, dto, env, ns, nc, nb)
    requires ListAt(w.cache, PendingKey) == []
    requires denv.lrangeUp && denv.dbUp
    ensures var t := BW.Drain(Execute(w, dto, env).0.cache, w.store, denv).1.ratings;
      && env.newId in t
      && t.Keys == w.store.ratings.Keys + {env.newId}
      && (env.newId !in w.store.ratings ==>
            && t[env.newId].movieId == dto.movieId
            && t[env.newId].rating == dto.rating.v
            && t[env.newId].createdAt == Fin(env.now as real))
  {
    var e := EntityOf(dto, env);
    IntakeLeaves(w, dto, env, ns, nc, nb);
    DrainAfterIntake(Execute(w, dto, env).0.cache, w.store, e, StarsOf(dto), env.now, denv);
  }

  /** The cache as intake leaves it, drained: the rating's entry is accepted and inserted. */
  lemma DrainAfterIntake(c: Cache, s: Store, e: Rating, stars: int, now: int, denv: BW.DrainEnv)
    requires var p := PendingOf(e, stars, now);
      && p.id != "" && p.movieId != "" && 1 <= p.rating <= 5 && p.timestamp > 0
      && ListAt(c, PendingKey) == [Encode(p)]
      && RatingHashKey(e.id) in c.data && c.data[RatingHashKey(e.id)] == Hash(HashFields(e, stars, now))
    requires denv.lrangeUp && denv.dbUp
    ensures var t := BW.Drain(c, s, denv).1.ratings;
      && e.id in t
      && t.Keys == s.ratings.Keys + {e.id}
      && (e.id !in s.ratings ==>
            t[e.id].movieId == e.movieId && t[e.id].rating == stars as real && t[e.id].createdAt == Fin(now as real))
  {
    var p := PendingOf(e, stars, now);
    assert HGet(c, RatingHashKey(p.id), "persisted", denv.hgetUp) != Some("1") by {
      assert "persisted" !in HashFields(e, stars, now);
    }
    EntryJudged(c, p, denv.hgetUp, denv.now);
    DrainOneAccepted(c, s, Encode(p), denv);
  }

  /** The fields of the hash intake wrote, as the single write reads them. */
  lemma HashRead(e: Rating, stars: int, now: int)
    ensures var raw := BW.FromHash(HashFields(e, stars, now));
      && BW.Field(raw, "id") == Some(JStr(e.id)) && BW.Field(raw, "movieId") == Some(JStr(e.movieId))
      && BW.Field(raw, "rating") == Some(JStr(IntToString(stars)))
      && BW.Field(raw, "timestamp") == Some(JStr(IntToString(now)))
  {
  }

  /** Every field of the hash is text, so the optional ones are text or null. */
  lemma HashOptionalText(e: Rating, stars: int, now: int)
    ensures var raw := BW.FromHash(HashFields(e, stars, now));
      && BW.TextOrNull(BW.OrNull(BW.Field(raw, "sessionId"))) && BW.TextOrNull(BW.OrNull(BW.Field(raw, "userId")))
      && BW.TextOrNull(BW.OrNull(BW.Field(raw, "ipAddress"))) && BW.TextOrNull(BW.OrNull(BW.Field(raw, "userAgent")))
  {
  }

  /** The validator takes the hash intake wrote: its fields are all text, and the numbers read back. */
  lemma HashValidates(e: Rating, stars: int, now: int, now2: int)
    requires e.id != "" && e.movieId != "" && 1 <= stars <= 5
    ensures var v := BW.Validate(BW.FromHash(HashFields(e, stars, now)), now2);
      && v.Success? && v.value.id == JStr(e.id) && BW.Storable(v.value)
      && v.value.movieId == JStr(e.movieId) && v.value.rating == stars as real
      && v.value.createdAt == Fin(now as real)
  {
    var raw := BW.FromHash(HashFields(e, stars, now));
    HashRead(e, stars, now);
    HashOptionalText(e, stars, now);
    ParseFloatRoundTrip(stars);
    ParseIntRoundTrip(now);
    ValidateOf(raw, e.id, e.movieId, JStr(IntToString(stars)), stars, JStr(IntToString(now)), now, now2);
  }

  /** The single write of a hash with a non-empty id that validates to a storable row succeeds. */
  lemma SingleWriteOfValid(c: Cache, s: Store, id: string, fields: map<string, string>, senv: BW.SingleEnv)
    requires RatingHashKey(id) in c.data && c.data[RatingHashKey(id)] == Hash(fields)
    requires BW.Field(BW.FromHash(fields), "id") == Some(JStr(id)) && id != ""
    requires BW.Validate(BW.FromHash(fields), senv.now).Success? && BW.Storable(BW.Validate(BW.FromHash(fields), senv.now).value)
    requires senv.hgetallUp && senv.dbUp
    ensures var r := BW.ProcessSingleWrite(c, s, id, senv);
      var v := BW.Validate(BW.FromHash(fields), senv.now).value;
      && r.2.None? && id in r.1.ratings
      && r.1.ratings.Keys == s.ratings.Keys + {id}
      && (id !in s.ratings ==> r.1.ratings[id] == BW.RowOf(v, senv.now))
      && (senv.hsetUp ==> HGet(r.0, RatingHashKey(id), "persisted", true) == Some("1"))
  {
    assert HGetAll(c, RatingHashKey(id), true) == fields;
    var v := BW.Validate(BW.FromHash(fields), senv.now).value;
    assert BW.AllStorable([v]);
    assert BW.Persist(s, [v], senv.dbUp, senv.now).Success?;
    assert BW.ProcessSingleWrite(c, s, id, senv).2.None?;
    BW.SingleWriteStores(c, s, id, senv);
    InsertedOne(BW.ProcessSingleWrite(c, s, id, senv).1.ratings, s.ratings, v, senv.now);
  }

  /** The single write finds the hash intake wrote, validates it and inserts the rating. */
  lemma SingleWriteOfHash(c: Cache, s: Store, e: Rating, stars: int, now: int, senv: BW.SingleEnv)
    requires e.id != "" && e.movieId != "" && 1 <= stars <= 5
    requires RatingHashKey(e.id) in c.data && c.data[RatingHashKey(e.id)] == Hash(HashFields(e, stars, now))
    requires senv.hgetallUp && senv.dbUp
    ensures var r := BW.ProcessSingleWrite(c, s, e.id, senv);
      && r.2.None? && e.id in r.1.ratings
      && r.1.ratings.Keys == s.ratings.Keys + {e.id}
      && (e.id !in s.ratings ==>
            r.1.ratings[e.id].movieId == e.movieId && r.1.ratings[e.id].rating == stars as real
            && r.1.ratings[e.id].createdAt == Fin(now as real))
      && (senv.hsetUp ==> HGet(r.0, RatingHashKey(e.id), "persisted", true) == Some("1"))
  {
    HashRead(e, stars, now);
    HashValidates(e, stars, now, senv.now);
    SingleWriteOfValid(c, s, e.id, HashFields(e, stars, now), senv);
  }

  /**
   * The delayed single write of the rating stores it (with the submitted
   * movie and stars when its id is new) and flags its hash; a later drain
   * that meets the rating's entry then leaves the table as it is, and takes
   * the entry off the list when its `lrem` reaches Redis.
   */
  lemma SingleWriteThenDrainSkips(w: World, dto: CreateRatingDto, env: IntakeEnv, ns: int, nc: int, nb: int,
                                  senv: BW.SingleEnv, denv: BW.DrainEnv)
    requires IntakeWrites(w, dto, env, ns, nc, nb)
    requires ListAt(w.cache, PendingKey) == []
    requires senv.hgetallUp && senv.dbUp && senv.hsetUp
    requires denv.hgetUp
    ensures var c1 := Execute(w, dto, env).0.cache;
      var single := BW.ProcessSingleWrite(c1, w.store, env.newId, senv);
      && single.2.None?
      && env.newId in single.1.ratings
      && single.1.ratings.Keys == w.store.ratings.Keys + {env.newId}
      && (env.newId !in w.store.ratings ==>
            single.1.ratings[env.newId].movieId == dto.movieId && single.1.ratings[env.newId].rating == dto.rating.v)
      && HGet(single.0, RatingHashKey(env.newId), "persisted", true) == Some("1")
      && BW.Drain(single.0, single.1, denv).1 == single.1
      && (denv.lrangeUp && denv.removeSent >= 1 ==> ListAt(BW.Drain(single.0, single.1, denv).0, PendingKey) == [])
  {
    var e := EntityOf(dto, env);
    IntakeLeaves(w, dto, env, ns, nc, nb);
    SingleThenDrain(Execute(w, dto, env).0.cache, w.store, e, StarsOf(dto), env.now, senv, denv);
  }

  /** The cache as intake leaves it: the single write inserts the rating, and a drain then skips its entry. */
  lemma SingleThenDrain(c: Cache, s: Store, e: Rating, stars: int, now: int, senv: BW.SingleEnv, denv: BW.DrainEnv)
    requires var p := PendingOf(e, stars, now);
      && p.id != "" && p.movieId != "" && 1 <= p.rating <= 5 && p.timestamp > 0
      && ListAt(c, PendingKey) == [Encode(p)]
      && RatingHashKey(e.id) in c.data && c.data[RatingHashKey(e.id)] == Hash(HashFields(e, stars, now))
    requires senv.hgetallUp && senv.dbUp && senv.hsetUp
    requires denv.hgetUp
    ensures var single := BW.ProcessSingleWrite(c, s, e.id, senv);
      && single.2.None?
      && e.id in single.1.ratings
      && single.1.ratings.Keys == s.ratings.Keys + {e.id}
      && (e.id !in s.ratings ==> single.1.ratings[e.id].movieId == e.movieId && single.1.ratings[e.id].rating == stars as real)
      && HGet(single.0, RatingHashKey(e.id), "persisted", true) == Some("1")
      && BW.Drain(single.0, single.1, denv).1 == single.1
      && (denv.lrangeUp && denv.removeSent >= 1 ==> ListAt(BW.Drain(single.0, single.1, denv).0, PendingKey) == [])
  {
    var p := PendingOf(e, stars, now);
    SingleWriteOfHash(c, s, e, stars, now, senv);
    SingleWriteKeepsPending(c, s, e.id, senv);
    var single := BW.ProcessSingleWrite(c, s, e.id, senv);
    DrainSkipsFlagged(single.0, single.1, p, denv);
  }

  /** Flagging a rating hash leaves the pending list as it was. */
  lemma FlagKeepsPending(c: Cache, key: string, up: bool)
    requires BW.IsRatingKey(key)
    ensures ListAt(HSetField(c, key, "persisted", JStr("1"), up), PendingKey) == ListAt(c, PendingKey)
  {
    assert PendingKey[0] == 'p';
  }

  /** The single write touches the rating's hash only, so the pending list is as it was. */
  lemma SingleWriteKeepsPending(c: Cache, s: Store, id: string, senv: BW.SingleEnv)
    ensures ListAt(BW.ProcessSingleWrite(c, s, id, senv).0, PendingKey) == ListAt(c, PendingKey)
  {
    var key := RatingHashKey(id);
    assert BW.IsRatingKey(key) by { assert key[0] == 'r'; }
    FlagKeepsPending(c, key, senv.hsetUp);
  }

  /** A drain over a list holding only the entry of a rating whose hash is flagged leaves the table as it is. */
  lemma DrainSkipsFlagged(c: Cache, s: Store, p: PendingEntry, denv: BW.DrainEnv)
    requires p.id != "" && p.movieId != "" && 1 <= p.rating <= 5 && p.timestamp > 0
    requires ListAt(c, PendingKey) == [Encode(p)]
    requires HGet(c, RatingHashKey(p.id), "persisted", true) == Some("1") && denv.hgetUp
    ensures BW.Drain(c, s, denv).1 == s
    ensures denv.lrangeUp && denv.removeSent >= 1 ==> ListAt(BW.Drain(c, s, denv).0, PendingKey) == []
  {
    EntryJudged(c, p, denv.hgetUp, denv.now);
    DrainOneSkipped(c, s, Encode(p), denv);
  }
}
