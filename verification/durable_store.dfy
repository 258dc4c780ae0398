/**
 * The relational store behind Prisma: rating rows keyed by id, movie rows
 * and per-movie statistics rows, with the rating repository's
 * skip-duplicates insert, duplicate lookup and row-to-entity mapping.
 */
module DurableStore {
  import opened Wrappers
  import opened JsNumber
  import opened SessionIds

  /** A row of the `rating` table; `createdAt` is a JavaScript time value (NaN for an invalid date). */
  datatype RatingRow = RatingRow(
    id: string,
    movieId: string,
    rating: real,
    sessionId: Option<string>,
    userId: Option<string>,
    ipAddress: Option<string>,
    userAgent: Option<string>,
    createdAt: Num,
    updatedAt: Num)

  /** The rating columns of a `movie` row. */
  datatype MovieRow = MovieRow(averageRating: real, totalRatings: int, updatedAt: int)

  /** A `movie_statistics` row. */
  datatype StatsRow = StatsRow(
    averageRating: real,
    totalRatings: int,
    bucketCounts: seq<int>,
    recentRatingsCount: int,
    trendingScore: real,
    lastCalculatedAt: int)

  datatype Store = Store(
    ratings: map<string, RatingRow>,
    movies: map<string, MovieRow>,
    statistics: map<string, StatsRow>)

  /** Every rating row is filed under its own id. */
  predicate Valid(s: Store) {
    forall id :: id in s.ratings ==> s.ratings[id].id == id
  }

  /** The ids a batch of rows carries. */
  function Ids(rows: seq<RatingRow>): set<string> {
    set i | 0 <= i < |rows| :: rows[i].id
  }

  /** Whether row `i` is the first in the batch with its id. */
  predicate FirstWithId(rows: seq<RatingRow>, i: int)
    requires 0 <= i < |rows|
  {
    forall j :: 0 <= j < i ==> rows[j].id != rows[i].id
  }

  /**
   * `createMany({ data, skipDuplicates: true })` on the rating table: a row
   * whose id is already taken (in the table or earlier in the batch) is
   * skipped; every other row is inserted.
   */
  function InsertSkipDuplicates(t: map<string, RatingRow>, rows: seq<RatingRow>): (r: map<string, RatingRow>)
    ensures r.Keys == t.Keys + Ids(rows)
    ensures forall id :: id in t ==> r[id] == t[id]
    ensures forall i :: 0 <= i < |rows| && rows[i].id !in t && FirstWithId(rows, i) ==> r[rows[i].id] == rows[i]
    decreases |rows|
  {
    if |rows| == 0 then t
    else
      var t1 := if rows[0].id in t then t else t[rows[0].id := rows[0]];
      var r := InsertSkipDuplicates(t1, rows[1..]);
      IdsCons(rows);
      FirstWithIdTail(rows, t, t1);
      r
  }

  /** The ids of a batch are the first row's id and the ids of the rest. */
  lemma IdsCons(rows: seq<RatingRow>)
    requires |rows| > 0
    ensures Ids(rows) == {rows[0].id} + Ids(rows[1..])
  {
    forall x | x in Ids(rows) ensures x in {rows[0].id} + Ids(rows[1..]) {
      var i :| 0 <= i < |rows| && rows[i].id == x;
      if i > 0 { assert rows[1..][i - 1].id == x; }
    }
    forall x | x in Ids(rows[1..]) ensures x in Ids(rows) {
      var i :| 0 <= i < |rows[1..]| && rows[1..][i].id == x;
      assert rows[i + 1].id == x;
    }
  }

  /** A later row that is first with its id in the batch stays first in the rest of it, and new to the table after the head went in. */
  lemma FirstWithIdTail(rows: seq<RatingRow>, t: map<string, RatingRow>, t1: map<string, RatingRow>)
    requires |rows| > 0 && t1.Keys == t.Keys + {rows[0].id}
    ensures forall i :: 1 <= i < |rows| && rows[i].id !in t && FirstWithId(rows, i) ==>
      rows[1..][i - 1].id !in t1 && FirstWithId(rows[1..], i - 1)
  {
  }

  /** Inserting the same batch twice adds nothing the first insert did not. */
  lemma InsertIdempotent(t: map<string, RatingRow>, rows: seq<RatingRow>)
    ensures InsertSkipDuplicates(InsertSkipDuplicates(t, rows), rows) == InsertSkipDuplicates(t, rows)
  {
  }

  /** The skip-duplicates insert keeps every row filed under its id. */
  lemma InsertKeepsValid(s: Store, rows: seq<RatingRow>)
    requires Valid(s)
    ensures Valid(s.(ratings := InsertSkipDuplicates(s.ratings, rows)))
  {
    var r := InsertSkipDuplicates(s.ratings, rows);
    forall id | id in r ensures r[id].id == id {
      if id !in s.ratings {
        var i :| 0 <= i < |rows| && rows[i].id == id;
        var k := FirstIndex(rows, id, i);
        assert r[rows[k].id] == rows[k];
      }
    }
  }

  /** The first row of the batch carrying `id`, at or before `i`. */
  function FirstIndex(rows: seq<RatingRow>, id: string, i: nat): (k: nat)
    requires i < |rows| && rows[i].id == id
    ensures k <= i && rows[k].id == id && FirstWithId(rows, k)
    decreases i
  {
    if exists j :: 0 <= j < i && rows[j].id == id then
      var j :| 0 <= j < i && rows[j].id == id;
      FirstIndex(rows, id, j)
    else i
  }

  // ---------------------------------------------------------------------
  // findDuplicate
  // ---------------------------------------------------------------------

  /** One entry of the `OR` list. `SessionIs(None)` is `{ sessionId: undefined }`, which Prisma drops, so it matches every row. */
  datatype Disjunct = UserIs(u: string) | SessionIs(s: Option<string>)

  /** The `where` clause of `findDuplicate`: the movie, and the `OR` list. */
  datatype DuplicateQuery = DuplicateQuery(movieId: string, anyOf: seq<Disjunct>)

  /**
   * The query `findDuplicate` builds: the user disjunct only for a truthy
   * user id, then the session disjunct always, since the guard tests the
   * getter method itself, which is always truthy.
   */
  function BuildDuplicateQuery(movieId: string, ident: SessionIdentifier): (q: DuplicateQuery)
    ensures q.movieId == movieId
    ensures |q.anyOf| >= 1
    ensures q.anyOf[|q.anyOf| - 1] == SessionIs(ident.GetSessionId())
    ensures (exists i :: 0 <= i < |q.anyOf| && q.anyOf[i].UserIs?) <==> TruthyText(ident.GetUserId())
    ensures forall i :: 0 <= i < |q.anyOf| && q.anyOf[i].UserIs? ==> Some(q.anyOf[i].u) == ident.GetUserId()
  {
    var users := if TruthyText(ident.GetUserId()) then [UserIs(ident.GetUserId().value)] else [];
    var q := DuplicateQuery(movieId, users + [SessionIs(ident.GetSessionId())]);
    assert TruthyText(ident.GetUserId()) ==> q.anyOf[0].UserIs?;
    q
  }

  predicate DisjunctMatches(row: RatingRow, d: Disjunct) {
    match d
    case UserIs(u) => row.userId == Some(u)
    case SessionIs(None) => true
    case SessionIs(Some(s)) => row.sessionId == Some(s)
  }

  predicate QueryMatches(row: RatingRow, q: DuplicateQuery) {
    row.movieId == q.movieId && exists i :: 0 <= i < |q.anyOf| && DisjunctMatches(row, q.anyOf[i])
  }

  /**
   * Whether `findFirst` finds a row; an empty `OR` list would return null
   * without a query. A row found is always a rating of the same movie.
   */
  predicate FindDuplicate(s: Store, movieId: string, ident: SessionIdentifier)
    ensures FindDuplicate(s, movieId, ident) ==> exists id :: id in s.ratings && s.ratings[id].movieId == movieId
  {
    var q := BuildDuplicateQuery(movieId, ident);
    if |q.anyOf| == 0 then false
    else exists id :: id in s.ratings && QueryMatches(s.ratings[id], q)
  }

  /** The identity recorded on a row. */
  function RowIdentity(row: RatingRow): SessionIdentifier {
    SessionIdentifier(row.sessionId, row.userId, row.ipAddress)
  }

  /**
   * With a non-empty session id, the durable lookup finds exactly the rows of
   * the movie whose identity `isDuplicate` of the caller's.
   */
  lemma FindDuplicateIsIsDuplicate(s: Store, movieId: string, ident: SessionIdentifier)
    requires TruthyText(ident.GetSessionId())
    ensures FindDuplicate(s, movieId, ident) <==>
      exists id :: id in s.ratings && s.ratings[id].movieId == movieId && IsDuplicate(ident, RowIdentity(s.ratings[id]))
  {
    var q := BuildDuplicateQuery(movieId, ident);
    forall id | id in s.ratings
      ensures QueryMatches(s.ratings[id], q) <==> s.ratings[id].movieId == movieId && IsDuplicate(ident, RowIdentity(s.ratings[id]))
    {
      var row := s.ratings[id];
      if row.movieId == movieId && IsDuplicate(ident, RowIdentity(row)) {
        if TruthyText(ident.sessionId) && ident.sessionId == row.sessionId {
          assert DisjunctMatches(row, q.anyOf[|q.anyOf| - 1]);
        } else {
          assert DisjunctMatches(row, q.anyOf[0]);
        }
      }
    }
  }

  /**
   * Without a session id the session disjunct is dropped by Prisma and
   * matches everything: any earlier rating of the movie counts as a duplicate.
   */
  lemma FindDuplicateWithoutSession(s: Store, movieId: string, ident: SessionIdentifier)
    requires ident.GetSessionId().None?
    ensures FindDuplicate(s, movieId, ident) <==> exists id :: id in s.ratings && s.ratings[id].movieId == movieId
  {
    var q := BuildDuplicateQuery(movieId, ident);
    forall id | id in s.ratings && s.ratings[id].movieId == movieId
      ensures QueryMatches(s.ratings[id], q)
    {
      assert DisjunctMatches(s.ratings[id], q.anyOf[|q.anyOf| - 1]);
    }
  }

  // ---------------------------------------------------------------------
  // Entities
  // ---------------------------------------------------------------------

  /** The `Rating` entity. */
  datatype Rating = Rating(
    id: string,
    movieId: string,
    rating: real,
    sessionId: Option<string>,
    userId: Option<string>,
    ipAddress: Option<string>,
    userAgent: Option<string>,
    createdAt: Num,
    updatedAt: Num)

  /** `toDomain`: copies every column. */
  function ToDomain(row: RatingRow): (r: Rating)
    ensures r.id == row.id && r.movieId == row.movieId && r.rating == row.rating
    ensures r.sessionId == row.sessionId && r.userId == row.userId
    ensures r.ipAddress == row.ipAddress && r.userAgent == row.userAgent
    ensures r.createdAt == row.createdAt && r.updatedAt == row.updatedAt
  {
    Rating(row.id, row.movieId, row.rating, row.sessionId, row.userId, row.ipAddress, row.userAgent, row.createdAt, row.updatedAt)
  }

  /** `toDomain` loses nothing: two rows with the same entity are the same row. */
  lemma ToDomainInjective(a: RatingRow, b: RatingRow)
    requires ToDomain(a) == ToDomain(b)
    ensures a == b
  {
  }

  /** The row `batchCreate` writes for an entity: its columns, with both timestamps `now`. */
  function NewRow(x: Rating, now: int): RatingRow {
    RatingRow(x.id, x.movieId, x.rating, x.sessionId, x.userId, x.ipAddress, x.userAgent, Fin(now as real), Fin(now as real))
  }

  /**
   * `batchCreate`: inserts the entities' columns (the table fills both
   * timestamps with `now`), skipping taken ids, then returns the stored rows
   * whose ids were requested, mapped to entities.
   */
  function BatchCreate(s: Store, ratings: seq<Rating>, now: int): (r: (Store, set<Rating>))
    ensures r.0.ratings.Keys == s.ratings.Keys + RequestedIds(ratings)
    ensures r.0.movies == s.movies && r.0.statistics == s.statistics
    ensures forall x :: x in r.1 <==> exists id :: id in r.0.ratings && x == ToDomain(r.0.ratings[id]) && id in RequestedIds(ratings)
    ensures forall id :: id in s.ratings && id in RequestedIds(ratings) ==> ToDomain(s.ratings[id]) in r.1
    ensures forall id :: id in s.ratings ==> r.0.ratings[id] == s.ratings[id]
    ensures forall i :: 0 <= i < |ratings| && ratings[i].id !in s.ratings && FirstRequest(ratings, i) ==>
      ratings[i].id in r.0.ratings && r.0.ratings[ratings[i].id] == NewRow(ratings[i], now)
  {
    var rows := NewRows(ratings, now);
    NewRowsIds(ratings, now);
    var t := InsertSkipDuplicates(s.ratings, rows);
    (s.(ratings := t), set id | id in t && id in RequestedIds(ratings) :: ToDomain(t[id]))
  }

  /** The ids a batch asks for. */
  function RequestedIds(ratings: seq<Rating>): set<string> {
    set i | 0 <= i < |ratings| :: ratings[i].id
  }

  /** Whether rating `i` is the first in the batch with its id. */
  predicate FirstRequest(ratings: seq<Rating>, i: int)
    requires 0 <= i < |ratings|
  {
    forall j :: 0 <= j < i ==> ratings[j].id != ratings[i].id
  }

  /** The rows `createMany` is handed, one per rating. */
  function NewRows(ratings: seq<Rating>, now: int): (rows: seq<RatingRow>)
    ensures |rows| == |ratings|
    ensures forall i :: 0 <= i < |ratings| ==> rows[i] == NewRow(ratings[i], now)
  {
    seq(|ratings|, i requires 0 <= i < |ratings| => NewRow(ratings[i], now))
  }

  /** The rows carry the ratings' ids, so "first with its id" means the same on both. */
  lemma NewRowsIds(ratings: seq<Rating>, now: int)
    ensures Ids(NewRows(ratings, now)) == RequestedIds(ratings)
    ensures forall i :: 0 <= i < |ratings| && FirstRequest(ratings, i) ==> FirstWithId(NewRows(ratings, now), i)
  {
    var rows := NewRows(ratings, now);
    forall i | 0 <= i < |ratings| && FirstRequest(ratings, i)
      ensures FirstWithId(rows, i)
    {
      forall j | 0 <= j < i ensures rows[j].id != rows[i].id {
        assert rows[j].id == ratings[j].id;
      }
    }
    forall x | x in Ids(rows) ensures x in RequestedIds(ratings) {
      var i :| 0 <= i < |rows| && rows[i].id == x;
      assert ratings[i].id == x;
    }
    forall x | x in RequestedIds(ratings) ensures x in Ids(rows) {
      var i :| 0 <= i < |ratings| && ratings[i].id == x;
      assert rows[i].id == x;
    }
  }
}
