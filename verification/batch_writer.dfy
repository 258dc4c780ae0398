/**
 * The batch writer (`BatchWriteProcessor`): the drain cycle that moves up to
 * 200 entries of `pending:ratings` into the rating table, and the
 * single-rating replay driven by a `batch-write` job.
 */
module BatchWriter {
  import opened Wrappers
  import opened Text
  import opened JsNumber
  import opened JsonText
  import opened CacheStore
  import opened DurableStore
  import opened RatingKeys

  /** How many pending entries one drain cycle examines. */
  const BatchSize: nat := 200

  // ---------------------------------------------------------------------
  // validateAndTransformRating
  // ---------------------------------------------------------------------

  /** What the validator reads: a parsed pending entry, or the fields of a rating hash. */
  datatype RawRating = FromEntry(members: JsonObject) | FromHash(fields: map<string, string>)

  /** `raw[name]`, None for undefined; hash fields are always text. */
  function Field(raw: RawRating, name: string): Option<JsonValue> {
    match raw
    case FromEntry(ms) => Lookup(ms, name)
    case FromHash(f) => if name in f then Some(JStr(f[name])) else None
  }

  /** JavaScript truthiness of a property: undefined, "" and 0 are falsy. */
  predicate TruthyValue(v: Option<JsonValue>) {
    match v
    case None => false
    case Some(JStr(s)) => s != ""
    case Some(JInt(n)) => n != 0
  }

  /** `String(v)`: what `parseFloat`, `parseInt` and template literals read. */
  function ToText(v: JsonValue): string {
    match v
    case JStr(s) => s
    case JInt(n) => IntToString(n)
  }

  /** `v || null`. */
  function OrNull(v: Option<JsonValue>): (r: Option<JsonValue>)
    ensures r.Some? <==> TruthyValue(v)
    ensures r.Some? ==> r == v
  {
    if TruthyValue(v) then v else None
  }

  /** The object the validator builds; the values keep whatever JSON type they had. */
  datatype RatingToInsert = RatingToInsert(
    id: JsonValue,
    movieId: JsonValue,
    rating: real,
    sessionId: Option<JsonValue>,
    userId: Option<JsonValue>,
    ipAddress: Option<JsonValue>,
    userAgent: Option<JsonValue>,
    createdAt: Num)

  /** The four errors the validator throws, in the order it checks. */
  datatype ValidationError = IdRequired | MovieIdRequired | RatingValueRequired | InvalidRatingValue

  /** The guard `isNaN(rating) || rating < 1 || rating > 5` lets through. */
  predicate InRange(n: Num) {
    n.Fin? && 1.0 <= n.v <= 5.0
  }

  /** `timestamp ? new Date(parseInt(timestamp)) : new Date()`; an unparsable timestamp is an invalid date. */
  function CreatedAt(raw: RawRating, now: int): Num {
    var ts := Field(raw, "timestamp");
    if TruthyValue(ts) then ParseInt(ToText(ts.value)) else Fin(now as real)
  }

  /** `validateAndTransformRating`. */
  function Validate(raw: RawRating, now: int): (r: Result<RatingToInsert, ValidationError>)
    ensures r.Success? <==>
      && TruthyValue(Field(raw, "id")) && TruthyValue(Field(raw, "movieId")) && TruthyValue(Field(raw, "rating"))
      && InRange(ParseFloat(ToText(Field(raw, "rating").value)))
    ensures r.Failure? ==>
      r.error == (if !TruthyValue(Field(raw, "id")) then IdRequired
                  else if !TruthyValue(Field(raw, "movieId")) then MovieIdRequired
                  else if !TruthyValue(Field(raw, "rating")) then RatingValueRequired
                  else InvalidRatingValue)
    ensures r.Success? ==>
      && r.value.id == Field(raw, "id").value && r.value.movieId == Field(raw, "movieId").value
      && Fin(r.value.rating) == ParseFloat(ToText(Field(raw, "rating").value))
      && 1.0 <= r.value.rating <= 5.0
      && r.value.sessionId == OrNull(Field(raw, "sessionId")) && r.value.userId == OrNull(Field(raw, "userId"))
      && r.value.ipAddress == OrNull(Field(raw, "ipAddress")) && r.value.userAgent == OrNull(Field(raw, "userAgent"))
      && r.value.createdAt == CreatedAt(raw, now)
  {
    var id := Field(raw, "id");
    var movieId := Field(raw, "movieId");
    var rating := Field(raw, "rating");
    if !TruthyValue(id) then Failure(IdRequired)
    else if !TruthyValue(movieId) then Failure(MovieIdRequired)
    else if !TruthyValue(rating) then Failure(RatingValueRequired)
    else
      var n := ParseFloat(ToText(rating.value));
      if n.NaN? || n.v < 1.0 || n.v > 5.0 then Failure(InvalidRatingValue)
      else
        Success(RatingToInsert(id.value, movieId.value, n.v,
          OrNull(Field(raw, "sessionId")), OrNull(Field(raw, "userId")),
          OrNull(Field(raw, "ipAddress")), OrNull(Field(raw, "userAgent")),
          CreatedAt(raw, now)))
  }

  /**
   * Unlike the rating value object, the drain's validator takes a half
   * star: a hash whose rating is "3.5" passes with the value 3.5.
   */
  lemma ValidateAcceptsHalfStar(id: string, movieId: string, now: int)
    requires id != "" && movieId != ""
    ensures var raw := FromHash(map["id" := id, "movieId" := movieId, "rating" := "3.5"]);
      Validate(raw, now).Success? && Validate(raw, now).value.rating == 3.5 && !IsInteger(3.5)
  {
    var raw := FromHash(map["id" := id, "movieId" := movieId, "rating" := "3.5"]);
    HalfStarFields(id, movieId);
    ParseFloatKeepsFraction();
    ValidateTextRating(raw, now, "3.5", 3.5);
  }

  /** A raw rating with text id, movie and rating passes when the rating text reads as a number from 1 to 5. */
  lemma ValidateTextRating(raw: RawRating, now: int, t: string, v: real)
    requires TruthyValue(Field(raw, "id")) && TruthyValue(Field(raw, "movieId"))
    requires Field(raw, "rating") == Some(JStr(t)) && t != ""
    requires ParseFloat(t) == Fin(v) && 1.0 <= v <= 5.0
    ensures Validate(raw, now).Success? && Validate(raw, now).value.rating == v
  {
  }

  /** The three fields of that hash, as the validator reads them. */
  lemma HalfStarFields(id: string, movieId: string)
    ensures var raw := FromHash(map["id" := id, "movieId" := movieId, "rating" := "3.5"]);
      && Field(raw, "id") == Some(JStr(id)) && Field(raw, "movieId") == Some(JStr(movieId))
      && Field(raw, "rating") == Some(JStr("3.5"))
  {
  }

  // ---------------------------------------------------------------------
  // persistToDatabase
  // ---------------------------------------------------------------------

  predicate TextOrNull(v: Option<JsonValue>) {
    v.None? || v.value.JStr?
  }

  /** Values the rating table accepts: text ids and identifiers and a valid date. */
  predicate Storable(r: RatingToInsert) {
    && r.id.JStr? && r.movieId.JStr?
    && TextOrNull(r.sessionId) && TextOrNull(r.userId) && TextOrNull(r.ipAddress) && TextOrNull(r.userAgent)
    && r.createdAt.Fin?
  }

  predicate AllStorable(rs: seq<RatingToInsert>) {
    forall i :: 0 <= i < |rs| ==> Storable(rs[i])
  }

  function TextOf(v: Option<JsonValue>): Option<string>
    requires TextOrNull(v)
  {
    if v.Some? then Some(v.value.s) else None
  }

  /** The row `createMany` writes; the table stamps `updatedAt` itself. */
  function RowOf(r: RatingToInsert, now: int): (row: RatingRow)
    requires Storable(r)
    ensures row.id == r.id.s && row.movieId == r.movieId.s && row.rating == r.rating
    ensures row.createdAt == r.createdAt && row.updatedAt == Fin(now as real)
  {
    RatingRow(r.id.s, r.movieId.s, r.rating, TextOf(r.sessionId), TextOf(r.userId), TextOf(r.ipAddress),
              TextOf(r.userAgent), r.createdAt, Fin(now as real))
  }

  function Rows(rs: seq<RatingToInsert>, now: int): (rows: seq<RatingRow>)
    requires AllStorable(rs)
    ensures |rows| == |rs|
    ensures forall i :: 0 <= i < |rs| ==> rows[i] == RowOf(rs[i], now)
  {
    seq(|rs|, i requires 0 <= i < |rs| => RowOf(rs[i], now))
  }

  /** The ids a batch of ratings carries. */
  function InsertIds(rs: seq<RatingToInsert>): set<string>
    requires AllStorable(rs)
  {
    set i | 0 <= i < |rs| :: rs[i].id.s
  }

  /** Whether `rs[i]` is the first rating of the batch with its id: the one `skipDuplicates` keeps. */
  predicate FirstOfId(rs: seq<RatingToInsert>, i: int)
    requires 0 <= i < |rs|
  {
    forall j :: 0 <= j < i ==> rs[j].id != rs[i].id
  }

  /**
   * Table `t` is table `before` with the batch inserted, skipping taken ids:
   * exactly the batch's ids are added, and a rating whose id was new is
   * stored as its row when it is the first of the batch with that id.
   */
  predicate InsertedAsRows(t: map<string, RatingRow>, before: map<string, RatingRow>, rs: seq<RatingToInsert>, now: int)
    requires AllStorable(rs)
  {
    && t.Keys == before.Keys + InsertIds(rs)
    && (forall i :: 0 <= i < |rs| && rs[i].id.s !in before && FirstOfId(rs, i) ==>
          rs[i].id.s in t && t[rs[i].id.s] == RowOf(rs[i], now))
  }

  datatype PersistError = DatabaseRejected

  /**
   * `persistToDatabase`: `createMany` with `skipDuplicates`. It throws when
   * the database is unreachable or a value has the wrong type; otherwise
   * every id not yet in the table gets its row and the rows already there
   * stay as they were.
   */
  function Persist(s: Store, rs: seq<RatingToInsert>, dbUp: bool, now: int): (r: Result<Store, PersistError>)
    ensures r.Success? <==> dbUp && AllStorable(rs)
    ensures r.Success? ==>
      && r.value.movies == s.movies && r.value.statistics == s.statistics
      && (forall id :: id in s.ratings ==> id in r.value.ratings && r.value.ratings[id] == s.ratings[id])
      && (forall i :: 0 <= i < |rs| ==> rs[i].id.s in r.value.ratings)
      && InsertedAsRows(r.value.ratings, s.ratings, rs, now)
  {
    if !dbUp || !AllStorable(rs) then Failure(DatabaseRejected)
    else
      var rows := Rows(rs, now);
      var t := InsertSkipDuplicates(s.ratings, rows);
      assert forall i :: 0 <= i < |rs| ==> rs[i].id.s == rows[i].id;
      RowIds(rs, now);
      Success(s.(ratings := t))
  }

  /** The rows of a batch carry its ids, and the first rating with an id gives the first row with it. */
  lemma RowIds(rs: seq<RatingToInsert>, now: int)
    requires AllStorable(rs)
    ensures Ids(Rows(rs, now)) == InsertIds(rs)
    ensures forall i :: 0 <= i < |rs| && FirstOfId(rs, i) ==> FirstWithId(Rows(rs, now), i)
  {
    var rows := Rows(rs, now);
    forall x | x in Ids(rows) ensures x in InsertIds(rs) {
      var i :| 0 <= i < |rows| && rows[i].id == x;
      assert rs[i].id.s == x;
    }
    forall x | x in InsertIds(rs) ensures x in Ids(rows) {
      var i :| 0 <= i < |rs| && rs[i].id.s == x;
      assert rows[i].id == x;
    }
    forall i | 0 <= i < |rs| && FirstOfId(rs, i) ensures FirstWithId(rows, i) {
      forall j | 0 <= j < i ensures rows[j].id != rows[i].id {
        assert rs[j].id != rs[i].id;
        assert rs[j].id.JStr? && rs[i].id.JStr?;
      }
    }
  }

  /** Re-inserting a rating whose id is already in the table adds no row and changes none. */
  lemma PersistSkipsExisting(s: Store, r: RatingToInsert, now: int)
    requires Storable(r) && r.id.s in s.ratings
    ensures Persist(s, [r], true, now) == Success(s)
  {
    var rows := Rows([r], now);
    forall x | x in Ids(rows) ensures x in s.ratings {
      var i :| 0 <= i < |rows| && rows[i].id == x;
    }
    var t := InsertSkipDuplicates(s.ratings, rows);
    assert t.Keys == s.ratings.Keys;
    assert t == s.ratings;
    assert s.(ratings := t) == s;
  }

  // ---------------------------------------------------------------------
  // processPendingRatings
  // ---------------------------------------------------------------------

  /** What the cycle decides for one entry. */
  datatype Verdict = AlreadyPersisted | Accept(rating: RatingToInsert) | Discard

  /** `${rating.id}`: the id as text, "undefined" when absent. */
  function IdText(v: Option<JsonValue>): string {
    match v
    case None => "undefined"
    case Some(x) => ToText(x)
  }

  /**
   * One entry: text that is no JSON object is discarded (a parse error, or a
   * value without properties that the validator then refuses); an entry
   * whose hash says `persisted = '1'` is only removed; otherwise it is
   * inserted when it validates and discarded when it does not.
   */
  function Judge(c: Cache, text: string, hgetUp: bool, now: int): (v: Verdict)
    ensures ParseObject(text).None? ==> v == Discard
    ensures v.Accept? ==>
      && ParseObject(text).Some?
      && Validate(FromEntry(ParseObject(text).value), now) == Success(v.rating)
      && Unflagged(c, v.rating, hgetUp)
    ensures ParseObject(text).Some? && Validate(FromEntry(ParseObject(text).value), now).Failure? ==> !v.Accept?
  {
    match ParseObject(text)
    case None => Discard
    case Some(ms) =>
      if HGet(c, RatingHashKey(IdText(Lookup(ms, "id"))), "persisted", hgetUp) == Some("1") then AlreadyPersisted
      else
        match Validate(FromEntry(ms), now)
        case Success(r) =>
          assert Some(r.id) == Lookup(ms, "id");
          Accept(r)
        case Failure(_) => Discard
  }

  /** The ratings to insert: the accepted entries, in list order. */
  function Accepted(c: Cache, texts: seq<string>, hgetUp: bool, now: int): (rs: seq<RatingToInsert>)
    ensures |rs| <= |texts|
    decreases |texts|
  {
    if |texts| == 0 then []
    else
      var front := Accepted(c, texts[..|texts| - 1], hgetUp, now);
      match Judge(c, texts[|texts| - 1], hgetUp, now)
      case Accept(r) => front + [r]
      case _ => front
  }

  /**
   * The loop of `processPendingRatings`: every entry goes on the removal
   * list, whatever its verdict, and the accepted ones on the insert list.
   */
  method Collect(c: Cache, texts: seq<string>, hgetUp: bool, now: int)
    returns (toInsert: seq<RatingToInsert>, toRemove: seq<string>)
    ensures toInsert == Accepted(c, texts, hgetUp, now)
    ensures toRemove == texts
  {
    toInsert := [];
    toRemove := [];
    var i := 0;
    while i < |texts|
      invariant 0 <= i <= |texts|
      invariant toInsert == Accepted(c, texts[..i], hgetUp, now)
      invariant toRemove == texts[..i]
    {
      var v := Judge(c, texts[i], hgetUp, now);
      AcceptedSnoc(c, texts, i, hgetUp, now);
      toInsert := toInsert + VerdictRatings(v);
      SliceSnoc(texts, i);
      toRemove := toRemove + [texts[i]];
      i := i + 1;
    }
    assert texts[..i] == texts;
  }

  lemma SliceSnoc<T>(xs: seq<T>, i: nat)
    requires i < |xs|
    ensures xs[..i + 1] == xs[..i] + [xs[i]]
  {
  }

  /** One more entry adds its rating when it is accepted, and nothing otherwise. */
  lemma AcceptedSnoc(c: Cache, texts: seq<string>, i: nat, hgetUp: bool, now: int)
    requires i < |texts|
    ensures Accepted(c, texts[..i + 1], hgetUp, now)
      == Accepted(c, texts[..i], hgetUp, now) + VerdictRatings(Judge(c, texts[i], hgetUp, now))
  {
    assert texts[..i + 1][..i] == texts[..i];
  }

  /** The ratings a verdict contributes to the insert list. */
  function VerdictRatings(v: Verdict): (rs: seq<RatingToInsert>)
    ensures |rs| <= 1
  {
    if v.Accept? then [v.rating] else []
  }

  /** Every accepted entry validated, and its hash was not marked persisted. */
  lemma {:induction false} AcceptedNotPersisted(c: Cache, texts: seq<string>, hgetUp: bool, now: int)
    ensures AllUnflagged(c, Accepted(c, texts, hgetUp, now), hgetUp)
    decreases |texts|
  {
    if |texts| > 0 {
      var front := texts[..|texts| - 1];
      var v := Judge(c, texts[|texts| - 1], hgetUp, now);
      AcceptedNotPersisted(c, front, hgetUp, now);
      AcceptedSnoc(c, texts, |texts| - 1, hgetUp, now);
      assert texts[..|texts|] == texts;
      if v.Accept? {
        AllUnflaggedAppend(c, Accepted(c, front, hgetUp, now), v.rating, hgetUp);
      }
    }
  }

  /** Every rating of the list validated and was not marked persisted. */
  predicate AllUnflagged(c: Cache, rs: seq<RatingToInsert>, hgetUp: bool) {
    forall i :: 0 <= i < |rs| ==> Unflagged(c, rs[i], hgetUp)
  }

  lemma AllUnflaggedAppend(c: Cache, rs: seq<RatingToInsert>, r: RatingToInsert, hgetUp: bool)
    requires AllUnflagged(c, rs, hgetUp) && Unflagged(c, r, hgetUp)
    ensures AllUnflagged(c, rs + [r], hgetUp)
  {
    forall i | 0 <= i < |rs + [r]| ensures Unflagged(c, (rs + [r])[i], hgetUp) {
      if i < |rs| {
        assert (rs + [r])[i] == rs[i];
      }
    }
  }

  /** A rating that validated and whose hash was not marked persisted. */
  predicate Unflagged(c: Cache, r: RatingToInsert, hgetUp: bool) {
    HGet(c, RatingHashKey(ToText(r.id)), "persisted", hgetUp) != Some("1") && 1.0 <= r.rating <= 5.0
  }

  /** `pipeline.hset(`rating:${id}`, 'persisted', '1')` for every inserted rating. */
  function MarkOps(rs: seq<RatingToInsert>): (ops: seq<Op>)
    requires AllStorable(rs)
    ensures |ops| == |rs|
    ensures forall i :: 0 <= i < |rs| ==> ops[i] == HSet(RatingHashKey(rs[i].id.s), map["persisted" := "1"])
  {
    seq(|rs|, i requires 0 <= i < |rs| => HSet(RatingHashKey(rs[i].id.s), map["persisted" := "1"]))
  }

  /** `pipeline.lrem('pending:ratings', 1, item)` for every examined entry. */
  function RemoveOps(texts: seq<string>): (ops: seq<Op>)
    ensures |ops| == |texts|
    ensures forall i :: 0 <= i < |texts| ==> ops[i] == LRem(PendingKey, 1, texts[i])
  {
    seq(|texts|, i requires 0 <= i < |texts| => LRem(PendingKey, 1, texts[i]))
  }

  /**
   * What the cycle takes from its surroundings: whether `lrange`, `hget`
   * and the database answer, how many commands of each pipeline reach
   * Redis, and the clock.
   */
  datatype DrainEnv = DrainEnv(lrangeUp: bool, hgetUp: bool, dbUp: bool, markSent: nat, removeSent: nat, now: int)

  /** `lrange('pending:ratings', 0, BATCH_SIZE - 1)`. */
  function Window(c: Cache, up: bool): seq<string> {
    LRange(c, PendingKey, 0, BatchSize - 1, up)
  }

  /**
   * `processPendingRatings`. An empty window does nothing. A failed insert,
   * or a marking pipeline whose `exec` rejects, ends the cycle before any
   * `lrem`. Otherwise every examined entry is removed once.
   */
  function Drain(c: Cache, s: Store, env: DrainEnv): (r: (Cache, Store))
    ensures r.1.movies == s.movies && r.1.statistics == s.statistics
    ensures forall id :: id in s.ratings ==> id in r.1.ratings && r.1.ratings[id] == s.ratings[id]
  {
    var texts := Window(c, env.lrangeUp);
    if |texts| == 0 then (c, s)
    else
      var rs := Accepted(c, texts, env.hgetUp, env.now);
      if |rs| > 0 then
        match Persist(s, rs, env.dbUp, env.now)
        case Failure(_) => (c, s)
        case Success(s1) =>
          var marked := Exec(c, MarkOps(rs), env.markSent);
          if marked.1.None? then (marked.0, s1)
          else (Exec(marked.0, RemoveOps(texts), env.removeSent).0, s1)
      else (Exec(c, RemoveOps(texts), env.removeSent).0, s)
  }

  /** The cycle examines at most the first 200 entries of the list, from its head. */
  lemma WindowIsHead(c: Cache)
    ensures var xs := ListAt(c, PendingKey);
      Window(c, true) == xs[..if |xs| < BatchSize then |xs| else BatchSize]
    ensures |Window(c, true)| <= BatchSize
  {
  }

  /** An empty pending list, or an unreachable cache, makes the cycle a no-op. */
  lemma DrainEmptyIsNoop(c: Cache, s: Store, env: DrainEnv)
    requires !env.lrangeUp || ListAt(c, PendingKey) == []
    ensures Drain(c, s, env) == (c, s)
  {
  }

  /** When the insert throws, the cycle returns with the cache, and so the pending list, untouched. */
  lemma DrainInsertFailureKeepsQueue(c: Cache, s: Store, env: DrainEnv)
    requires var rs := Accepted(c, Window(c, env.lrangeUp), env.hgetUp, env.now);
      |rs| > 0 && (!env.dbUp || !AllStorable(rs))
    ensures Drain(c, s, env) == (c, s)
  {
  }

  /**
   * After a successful insert every accepted rating has a row under its id,
   * no other id is added, and a rating whose id was new is stored as its
   * row (the first of the window with that id).
   */
  lemma DrainInserts(c: Cache, s: Store, env: DrainEnv, rs: seq<RatingToInsert>)
    requires rs == Accepted(c, Window(c, env.lrangeUp), env.hgetUp, env.now)
    requires env.dbUp && AllStorable(rs)
    ensures var t := Drain(c, s, env).1.ratings;
      && (forall i :: 0 <= i < |rs| ==> rs[i].id.s in t)
      && InsertedAsRows(t, s.ratings, rs, env.now)
  {
    if |rs| == 0 {
      assert InsertIds(rs) == {};
      assert Drain(c, s, env).1 == s;
    } else {
      var s1 := Persist(s, rs, env.dbUp, env.now).value;
      assert Drain(c, s, env).1 == s1;
    }
  }

  // ---------------------------------------------------------------------
  // Removing the window and marking the inserted ratings
  // ---------------------------------------------------------------------

  /** The pending key holds a list, or nothing yet. */
  predicate PendingIsList(c: Cache) {
    PendingKey !in c.data || c.data[PendingKey].List?
  }

  /** LREM with count 1 of the head item drops exactly the head. */
  lemma RemoveHead(xs: seq<string>)
    requires |xs| > 0
    ensures RemoveFirst(xs, xs[0], 1) == xs[1..]
  {
    assert RemoveFirst(xs[1..], xs[0], 0) == xs[1..] by { RemoveNone(xs[1..], xs[0]); }
  }

  lemma {:induction false} RemoveNone(xs: seq<string>, v: string)
    ensures RemoveFirst(xs, v, 0) == xs
    decreases |xs|
  {
    if |xs| > 0 {
      RemoveNone(xs[1..], v);
      assert [xs[0]] + xs[1..] == xs;
    }
  }

  /** One `lrem(pending, 1, head)` pops the head of the list. */
  lemma RemoveStep(c: Cache, v: string)
    requires PendingIsList(c) && |ListAt(c, PendingKey)| > 0 && ListAt(c, PendingKey)[0] == v
    ensures var after := Apply(c, LRem(PendingKey, 1, v)).0;
      PendingIsList(after) && ListAt(after, PendingKey) == ListAt(c, PendingKey)[1..]
  {
    RemoveHead(ListAt(c, PendingKey));
  }

  /**
   * Removing, one `lrem` with count 1 each, entries that are the head of the
   * list in order takes exactly that head off and keeps the rest in order.
   */
  lemma {:induction false} RemoveHeadEntries(c: Cache, texts: seq<string>)
    requires PendingIsList(c)
    requires |texts| <= |ListAt(c, PendingKey)| && texts == ListAt(c, PendingKey)[..|texts|]
    ensures var after := RunAll(c, RemoveOps(texts)).0;
      PendingIsList(after) && ListAt(after, PendingKey) == ListAt(c, PendingKey)[|texts|..]
    decreases |texts|
  {
    if |texts| > 0 {
      var xs := ListAt(c, PendingKey);
      RemoveStep(c, texts[0]);
      var c1 := Apply(c, LRem(PendingKey, 1, texts[0])).0;
      assert RemoveOps(texts)[1..] == RemoveOps(texts[1..]);
      assert texts[1..] == ListAt(c1, PendingKey)[..|texts| - 1];
      RemoveHeadEntries(c1, texts[1..]);
      assert xs[1..][|texts| - 1..] == xs[|texts|..];
    }
  }

  /** Keys of the `rating:` kind. */
  predicate IsRatingKey(k: string) {
    |k| > 0 && k[0] == 'r'
  }

  /** Commands on rating hashes leave the pending list alone. */
  lemma {:induction false} MarkKeepsPending(c: Cache, ops: seq<Op>)
    requires forall i :: 0 <= i < |ops| ==> IsRatingKey(ops[i].key)
    ensures (PendingKey in RunAll(c, ops).0.data <==> PendingKey in c.data)
    ensures PendingKey in c.data ==> RunAll(c, ops).0.data[PendingKey] == c.data[PendingKey]
    decreases |ops|
  {
    if |ops| > 0 {
      assert PendingKey[0] == 'p';
      MarkKeepsPending(Apply(c, ops[0]).0, ops[1..]);
    }
  }

  /** Removal commands on the pending list leave every rating hash alone. */
  lemma {:induction false} RemoveKeepsHashes(c: Cache, texts: seq<string>, k: string)
    requires IsRatingKey(k)
    ensures (k in RunAll(c, RemoveOps(texts)).0.data <==> k in c.data)
    ensures k in c.data ==> RunAll(c, RemoveOps(texts)).0.data[k] == c.data[k]
    decreases |texts|
  {
    if |texts| > 0 {
      assert PendingKey[0] == 'p';
      assert RemoveOps(texts)[1..] == RemoveOps(texts[1..]);
      RemoveKeepsHashes(Apply(c, LRem(PendingKey, 1, texts[0])).0, texts[1..], k);
    }
  }

  /** Nothing but the commands' own keys is a hash of the wrong type for HSET. */
  predicate HashOrMissing(c: Cache, k: string) {
    k !in c.data || c.data[k].Hash?
  }

  /** After `hset(k, 'persisted', '1')` the flag reads back, and the key is still a hash. */
  lemma MarkStep(c: Cache, k: string, other: string)
    requires HashOrMissing(c, k) && HashOrMissing(c, other)
    ensures var after := Apply(c, HSet(k, map["persisted" := "1"])).0;
      && HGet(after, k, "persisted", true) == Some("1")
      && HashOrMissing(after, other)
      && (other != k && HGet(c, other, "persisted", true) == Some("1") ==> HGet(after, other, "persisted", true) == Some("1"))
  {
  }

  /**
   * Running the marking commands on hashes (or missing keys) leaves every
   * marked key with `persisted = '1'`.
   */
  lemma {:induction false} MarkAll(c: Cache, keys: seq<string>, k: string)
    requires forall i :: 0 <= i < |keys| ==> HashOrMissing(c, keys[i])
    requires HashOrMissing(c, k)
    ensures var after := RunAll(c, seq(|keys|, i requires 0 <= i < |keys| => HSet(keys[i], map["persisted" := "1"]))).0;
      && HashOrMissing(after, k)
      && (k in keys || HGet(c, k, "persisted", true) == Some("1") ==> HGet(after, k, "persisted", true) == Some("1"))
    decreases |keys|
  {
    var ops := seq(|keys|, i requires 0 <= i < |keys| => HSet(keys[i], map["persisted" := "1"]));
    if |keys| > 0 {
      var c1 := Apply(c, ops[0]).0;
      MarkStep(c, keys[0], k);
      forall i | 0 <= i < |keys[1..]| ensures HashOrMissing(c1, keys[1..][i]) {
        MarkStep(c, keys[0], keys[1..][i]);
      }
      var rest := seq(|keys[1..]|, i requires 0 <= i < |keys[1..]| => HSet(keys[1..][i], map["persisted" := "1"]));
      assert ops[1..] == rest;
      MarkAll(c1, keys[1..], k);
      if k in keys && k != keys[0] {
        assert k in keys[1..];
      }
    }
  }

  /** The keys the marking pipeline writes. */
  function MarkKeys(rs: seq<RatingToInsert>): (keys: seq<string>)
    requires AllStorable(rs)
    ensures |keys| == |rs| && forall i :: 0 <= i < |rs| ==> keys[i] == RatingHashKey(rs[i].id.s)
  {
    seq(|rs|, i requires 0 <= i < |rs| => RatingHashKey(rs[i].id.s))
  }

  /** The situation in which both pipelines of a successful cycle reach Redis in full. */
  predicate FullCycle(c: Cache, env: DrainEnv) {
    var rs := Accepted(c, Window(c, env.lrangeUp), env.hgetUp, env.now);
    && env.lrangeUp && env.dbUp && AllStorable(rs)
    && env.markSent >= |rs| && env.removeSent >= |Window(c, true)|
    && PendingIsList(c)
    && (forall i :: 0 <= i < |rs| ==> HashOrMissing(c, RatingHashKey(rs[i].id.s)))
  }

  /**
   * A cycle whose insert succeeds and whose pipelines reach Redis in full
   * takes exactly the examined window off the head of the list; the entries
   * behind it stay, in order.
   */
  lemma DrainRemovesWindow(c: Cache, s: Store, env: DrainEnv)
    requires FullCycle(c, env)
    ensures var texts := Window(c, true);
      ListAt(Drain(c, s, env).0, PendingKey) == ListAt(c, PendingKey)[|texts|..]
  {
    var texts := Window(c, true);
    WindowIsHead(c);
    if |texts| > 0 {
      var rs := Accepted(c, texts, env.hgetUp, env.now);
      var c1 := if |rs| > 0 then RunAll(c, MarkOps(rs)).0 else c;
      if |rs| > 0 {
        forall i | 0 <= i < |MarkOps(rs)| ensures IsRatingKey(MarkOps(rs)[i].key) {
          assert MarkOps(rs)[i].key == RatingHashKey(rs[i].id.s);
        }
        MarkKeepsPending(c, MarkOps(rs));
        FullDrainCache(c, s, env);
      }
      assert ListAt(c1, PendingKey) == ListAt(c, PendingKey) && PendingIsList(c1);
      RemoveHeadEntries(c1, texts);
    }
  }

  /**
   * A cycle whose insert succeeds and whose pipelines reach Redis in full
   * marks every inserted rating's hash with `persisted = '1'`.
   */
  lemma DrainMarksInserted(c: Cache, s: Store, env: DrainEnv, i: nat)
    requires FullCycle(c, env)
    requires i < |Accepted(c, Window(c, env.lrangeUp), env.hgetUp, env.now)|
    ensures var rs := Accepted(c, Window(c, env.lrangeUp), env.hgetUp, env.now);
      HGet(Drain(c, s, env).0, RatingHashKey(rs[i].id.s), "persisted", true) == Some("1")
  {
    var texts := Window(c, true);
    var rs := Accepted(c, texts, env.hgetUp, env.now);
    var keys := MarkKeys(rs);
    var k := RatingHashKey(rs[i].id.s);
    assert MarkOps(rs) == seq(|keys|, j requires 0 <= j < |keys| => HSet(keys[j], map["persisted" := "1"]));
    assert keys[i] == k;
    MarkAll(c, keys, k);
    var c1 := RunAll(c, MarkOps(rs)).0;
    assert IsRatingKey(k);
    RemoveKeepsHashes(c1, texts, k);
    FullDrainCache(c, s, env);
  }

  /** With the insert done and both pipelines delivered, the cycle's cache is the marks, then the removals. */
  lemma FullDrainCache(c: Cache, s: Store, env: DrainEnv)
    requires FullCycle(c, env)
    requires |Accepted(c, Window(c, env.lrangeUp), env.hgetUp, env.now)| > 0
    ensures var texts := Window(c, true);
      var rs := Accepted(c, texts, env.hgetUp, env.now);
      Drain(c, s, env).0 == RunAll(RunAll(c, MarkOps(rs)).0, RemoveOps(texts)).0
  {
    var texts := Window(c, true);
    var rs := Accepted(c, texts, env.hgetUp, env.now);
    assert |texts| > 0;
    var marked := Exec(c, MarkOps(rs), env.markSent);
    assert marked.0 == RunAll(c, MarkOps(rs)).0 && marked.1.Some?;
    assert Exec(marked.0, RemoveOps(texts), env.removeSent).0 == RunAll(marked.0, RemoveOps(texts)).0;
  }

  // ---------------------------------------------------------------------
  // processSingleWrite
  // ---------------------------------------------------------------------

  /** Why the single write throws (and Bull retries the job). */
  datatype WriteError = NotFoundInCache(ratingId: string) | Invalid(cause: ValidationError) | PersistFailed

  /** What the single write takes from its surroundings. */
  datatype SingleEnv = SingleEnv(hgetallUp: bool, dbUp: bool, hsetUp: bool, now: int)

  /**
   * `processSingleWrite`: read the rating hash, refuse when it has no id
   * (a missing hash, a failing `hgetall`), validate, insert, then flag the
   * hash as persisted.
   */
  function ProcessSingleWrite(c: Cache, s: Store, ratingId: string, env: SingleEnv): (r: (Cache, Store, Option<WriteError>))
    ensures r.2.Some? ==> r.0 == c && r.1 == s
    ensures r.2.None? ==> r.0 == HSetField(c, RatingHashKey(ratingId), "persisted", JStr("1"), env.hsetUp)
    ensures r.2 == Some(NotFoundInCache(ratingId)) <==> !TruthyValue(Field(FromHash(HGetAll(c, RatingHashKey(ratingId), env.hgetallUp)), "id"))
    ensures r.1.movies == s.movies && r.1.statistics == s.statistics
  {
    var key := RatingHashKey(ratingId);
    var raw := FromHash(HGetAll(c, key, env.hgetallUp));
    if !TruthyValue(Field(raw, "id")) then (c, s, Some(NotFoundInCache(ratingId)))
    else
      match Validate(raw, env.now)
      case Failure(e) => (c, s, Some(Invalid(e)))
      case Success(v) =>
        match Persist(s, [v], env.dbUp, env.now)
        case Failure(_) => (c, s, Some(PersistFailed))
        case Success(s1) => (HSetField(c, key, "persisted", JStr("1"), env.hsetUp), s1, None)
  }

  /**
   * A successful single write stores the row under the id the hash holds,
   * and flags the hash when `hset` reaches Redis.
   */
  lemma SingleWriteStores(c: Cache, s: Store, ratingId: string, env: SingleEnv)
    requires ProcessSingleWrite(c, s, ratingId, env).2.None?
    ensures var data := HGetAll(c, RatingHashKey(ratingId), env.hgetallUp);
      var r := ProcessSingleWrite(c, s, ratingId, env);
      var v := Validate(FromHash(data), env.now);
      && "id" in data && data["id"] in r.1.ratings
      && v.Success? && Storable(v.value) && v.value.id == JStr(data["id"])
      && InsertedAsRows(r.1.ratings, s.ratings, [v.value], env.now)
      && (env.hsetUp ==> HGet(r.0, RatingHashKey(ratingId), "persisted", true) == Some("1"))
  {
    var data := HGetAll(c, RatingHashKey(ratingId), env.hgetallUp);
    var raw := FromHash(data);
    assert HGet(c, RatingHashKey(ratingId), "id", env.hgetallUp).Some?;
    var v := Validate(raw, env.now).value;
    var s1 := Persist(s, [v], env.dbUp, env.now).value;
    assert ProcessSingleWrite(c, s, ratingId, env).1 == s1;
  }
}
