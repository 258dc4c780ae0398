/**
 * `MovieService`: the catalog reads behind the movies controller. It
 * validates the page and the id, builds the cache key, serves a cached
 * answer when there is one, and otherwise asks the movie repository,
 * shapes the page and stores it. Cache failures are swallowed in both
 * directions.
 *
 * The cache is the in-process cache manager: one map per kind of value
 * (pages of top-rated movies, single movies), each entry carrying the TTL
 * it was stored with. The repository is a pair of functions given as
 * parameters.
 */
module MovieCatalog {
  import opened Wrappers
  import opened Text
  import opened JsNumber
  import Pagination

  /** `CACHE_TTL`; pages are stored for half of it and movies for twice it. */
  const CacheTtl: int := 300

  datatype ContentType = MovieType | TvShow

  /** The enum's string value, as it appears in cache keys. */
  function TypeName(t: ContentType): string {
    match t
    case MovieType => "MOVIE"
    case TvShow => "TV_SHOW"
  }

  datatype CastMember = CastMember(actorName: string)

  /** A movie as the repository returns it; dates are epoch milliseconds. */
  datatype Movie = Movie(
    id: string, title: string, description: Option<string>, releaseDate: int,
    coverImage: Option<string>, kind: ContentType, averageRating: Option<real>,
    totalRatings: int, cast: seq<CastMember>, createdAt: int, updatedAt: int)

  /** `MovieResponseDto`: the movie with its cast flattened to names. */
  datatype MovieDto = MovieDto(
    id: string, title: string, description: Option<string>, releaseDate: int,
    coverImage: Option<string>, kind: ContentType, averageRating: Option<real>,
    totalRatings: int, cast: seq<string>, createdAt: int, updatedAt: int)

  /** `PaginatedResult<T>`. */
  datatype Page<T> = Page(data: seq<T>, total: int, page: int, totalPages: int, hasNext: bool, hasPrevious: bool)

  /** The HTTP exceptions the service raises. */
  datatype CatalogError = BadRequest(message: string) | NotFound(message: string)

  // ---------------------------------------------------------------------
  // Validation
  // ---------------------------------------------------------------------

  /**
   * `validatePagination`: the same checks and messages as the search
   * engine's calculator, raised as bad requests. The controller parses both
   * numbers as integers.
   */
  function ValidatePagination(page: int, limit: int): (r: Result<(), CatalogError>)
    ensures r.Failure? <==> page < 1 || limit < 1 || limit > Pagination.MaxLimit
    ensures page < 1 ==> r == Failure(BadRequest("Page must be greater than 0"))
    ensures page >= 1 && r.Failure? ==> r == Failure(BadRequest("Limit must be between 1 and 50"))
  {
    match Pagination.ValidatePagination(Fin(page as real), Fin(limit as real))
    case Success(_) => Success(())
    case Failure(e) => Failure(BadRequest(Pagination.Message(e)))
  }

  /**
   * `validateId`: an absent id, or one that trims to nothing, is rejected;
   * the id is otherwise passed on as given, untrimmed.
   */
  function ValidateId(id: Option<string>): (r: Result<string, CatalogError>)
    ensures r.Failure? <==> id.None? || IsBlank(id.value)
    ensures r.Failure? ==> r.error == BadRequest("Movie ID cannot be empty")
    ensures r.Success? ==> r.value == id.value
  {
    if id.None? then Failure(BadRequest("Movie ID cannot be empty"))
    else
      TrimEmptyIffBlank(id.value);
      if Trim(id.value) == "" then Failure(BadRequest("Movie ID cannot be empty")) else Success(id.value)
  }

  // ---------------------------------------------------------------------
  // Cache keys
  // ---------------------------------------------------------------------

  /**
   * A JavaScript object as its ordered list of own entries; `None` is a key
   * whose value is `undefined`. Values are the text `${value}` renders.
   */
  type Entries = seq<(string, Option<string>)>

  function Keys(obj: Entries): seq<string> {
    seq(|obj|, i requires 0 <= i < |obj| => obj[i].0)
  }

  /** Every entry named `key` takes `value`; the rest are kept. */
  function Replace(obj: Entries, key: string, value: Option<string>): (r: Entries)
    ensures |r| == |obj|
    ensures forall i :: 0 <= i < |obj| ==> r[i] == if obj[i].0 == key then (key, value) else obj[i]
  {
    seq(|obj|, i requires 0 <= i < |obj| => if obj[i].0 == key then (key, value) else obj[i])
  }

  /**
   * One property of a spread, `{ ...obj, [key]: value }`: an existing key
   * keeps its place and takes the new value, a new key goes last.
   */
  function Assign(obj: Entries, key: string, value: Option<string>): (r: Entries)
    ensures key in Keys(obj) ==> Keys(r) == Keys(obj)
    ensures key !in Keys(obj) ==> r == obj + [(key, value)]
    ensures forall i :: 0 <= i < |r| && r[i].0 == key ==> r[i].1 == value
  {
    if key in Keys(obj) then Replace(obj, key, value)
    else
      assert forall i :: 0 <= i < |obj| ==> obj[i].0 == Keys(obj)[i];
      obj + [(key, value)]
  }

  /** Spreading two entries assigns them in order. */
  lemma SpreadTwo(obj: Entries, a: (string, Option<string>), b: (string, Option<string>))
    ensures Spread(obj, [a, b]) == Assign(Assign(obj, a.0, a.1), b.0, b.1)
  {
    assert [a, b][1..] == [b];
    assert [b][1..] == [];
    var once := Assign(obj, a.0, a.1);
    assert Spread(obj, [a, b]) == Spread(once, [b]);
    assert Spread(once, [b]) == Spread(Assign(once, b.0, b.1), []);
  }

  /** A defined entry at the end is kept, last. */
  lemma {:induction false} DefinedSnoc(params: Entries, k: string, v: string)
    ensures Defined(params + [(k, Some(v))]) == Defined(params) + [(k, v)]
    decreases |params|
  {
    if params == [] {
      assert Defined([(k, Some(v))]) == [(k, v)] + Defined([]);
    } else {
      assert (params + [(k, Some(v))])[1..] == params[1..] + [(k, Some(v))];
      DefinedSnoc(params[1..], k, v);
    }
  }

  /** `{ ...obj, ...more }`. */
  function Spread(obj: Entries, more: Entries): Entries
    decreases |more|
  {
    if more == [] then obj else Spread(Assign(obj, more[0].0, more[0].1), more[1..])
  }

  /** The entries `buildCacheKey` keeps: those whose value is not `undefined`, in order. */
  function Defined(params: Entries): (r: seq<(string, string)>)
    ensures |r| <= |params|
    decreases |params|
  {
    if params == [] then []
    else if params[0].1.None? then Defined(params[1..])
    else [(params[0].0, params[0].1.value)] + Defined(params[1..])
  }

  /** `key:value` for each kept entry. */
  function Rendered(kvs: seq<(string, string)>): (r: seq<string>)
    ensures |r| == |kvs|
  {
    seq(|kvs|, i requires 0 <= i < |kvs| => kvs[i].0 + ":" + kvs[i].1)
  }

  /**
   * `buildCacheKey`: the prefix alone when no entry has a value, otherwise
   * the prefix, a colon and the `key:value` renderings joined by colons.
   */
  function BuildCacheKey(prefix: string, params: Entries): (r: string)
    ensures Defined(params) == [] ==> r == prefix
  {
    var parts := Rendered(Defined(params));
    var paramString := Join(parts, ":");
    if paramString != "" then prefix + ":" + paramString else prefix
  }

  /** The parts of a key: the prefix, then every kept key followed by its value. */
  function KeyParts(prefix: string, kvs: seq<(string, string)>): seq<string>
    decreases |kvs|
  {
    if kvs == [] then [prefix] else KeyParts(prefix, kvs[..|kvs| - 1]) + [kvs[|kvs| - 1].0, kvs[|kvs| - 1].1]
  }

  predicate ColonFree(s: string) {
    ':' !in s
  }

  /** The prefix and every kept key and value avoid the colon. */
  predicate ColonFreeParams(prefix: string, params: Entries) {
    ColonFree(prefix) && forall i :: 0 <= i < |Defined(params)| ==> ColonFree(Defined(params)[i].0) && ColonFree(Defined(params)[i].1)
  }

  /**
   * When the prefix, keys and values avoid the colon, splitting the key at
   * colons gives back the prefix followed by each kept key and value, in
   * order: the key names the parameters it was built from.
   */
  lemma CacheKeySplits(prefix: string, params: Entries)
    requires ColonFreeParams(prefix, params)
    ensures Split(BuildCacheKey(prefix, params), ':') == KeyParts(prefix, Defined(params))
  {
    var kvs := Defined(params);
    KeyPartsJoin(prefix, kvs);
    var parts := KeyParts(prefix, kvs);
    KeyPartsColonFree(prefix, kvs);
    SplitJoin(parts, ':');
    if kvs == [] {
      assert Join(Rendered(kvs), ":") == "";
      SplitWithoutSeparator(prefix, ':');
    } else {
      assert Join(Rendered(kvs), ":") != "" by { JoinNonEmpty(Rendered(kvs)); }
    }
  }

  /** Two parameter lists with colon-free parts give the same key only if they keep the same entries. */
  lemma CacheKeyInjective(prefix: string, a: Entries, b: Entries)
    requires ColonFreeParams(prefix, a) && ColonFreeParams(prefix, b)
    requires BuildCacheKey(prefix, a) == BuildCacheKey(prefix, b)
    ensures Defined(a) == Defined(b)
  {
    CacheKeySplits(prefix, a);
    CacheKeySplits(prefix, b);
    KeyPartsInjective(prefix, Defined(a), Defined(b));
  }

  lemma {:induction false} KeyPartsInjective(prefix: string, a: seq<(string, string)>, b: seq<(string, string)>)
    requires KeyParts(prefix, a) == KeyParts(prefix, b)
    ensures a == b
    decreases |a|
  {
    KeyPartsLength(prefix, a);
    KeyPartsLength(prefix, b);
    if a != [] {
      var pa := KeyParts(prefix, a);
      var n := |pa|;
      assert pa[n - 2] == a[|a| - 1].0 && pa[n - 1] == a[|a| - 1].1;
      assert KeyParts(prefix, a[..|a| - 1]) == pa[..n - 2];
      assert KeyParts(prefix, b[..|b| - 1]) == pa[..n - 2];
      KeyPartsInjective(prefix, a[..|a| - 1], b[..|b| - 1]);
      assert a == a[..|a| - 1] + [a[|a| - 1]];
      assert b == b[..|b| - 1] + [b[|b| - 1]];
    }
  }

  lemma {:induction false} KeyPartsLength(prefix: string, kvs: seq<(string, string)>)
    ensures |KeyParts(prefix, kvs)| == 1 + 2 * |kvs|
    decreases |kvs|
  {
    if kvs != [] {
      KeyPartsLength(prefix, kvs[..|kvs| - 1]);
    }
  }

  /** The key is the parts joined by colons. */
  lemma {:induction false} KeyPartsJoin(prefix: string, kvs: seq<(string, string)>)
    ensures Join(KeyParts(prefix, kvs), ":") == if kvs == [] then prefix else prefix + ":" + Join(Rendered(kvs), ":")
    decreases |kvs|
  {
    if kvs != [] {
      var init := kvs[..|kvs| - 1];
      var last := kvs[|kvs| - 1];
      KeyPartsJoin(prefix, init);
      KeyPartsLength(prefix, init);
      JoinSnoc(KeyParts(prefix, init), last.0, ":");
      JoinSnoc(KeyParts(prefix, init) + [last.0], last.1, ":");
      assert KeyParts(prefix, kvs) == KeyParts(prefix, init) + [last.0] + [last.1];
      assert Rendered(kvs) == Rendered(init) + [last.0 + ":" + last.1];
      if init == [] {
        assert Rendered(kvs) == [last.0 + ":" + last.1];
        JoinOne(last.0 + ":" + last.1, ":");
        JoinOne(prefix, ":");
      } else {
        JoinSnoc(Rendered(init), last.0 + ":" + last.1, ":");
      }
    }
  }

  lemma {:induction false} KeyPartsColonFree(prefix: string, kvs: seq<(string, string)>)
    requires ColonFree(prefix)
    requires forall i :: 0 <= i < |kvs| ==> ColonFree(kvs[i].0) && ColonFree(kvs[i].1)
    ensures var parts := KeyParts(prefix, kvs);
      |parts| >= 1 && forall k :: 0 <= k < |parts| ==> ':' !in parts[k]
    decreases |kvs|
  {
    if kvs != [] {
      KeyPartsColonFree(prefix, kvs[..|kvs| - 1]);
    }
  }

  lemma JoinOne(s: string, sep: string)
    ensures Join([s], sep) == s
  {
  }

  /** Joining one more part appends the separator and the part. */
  lemma {:induction false} JoinSnoc(parts: seq<string>, p: string, sep: string)
    requires |parts| >= 1
    ensures Join(parts + [p], sep) == Join(parts, sep) + sep + p
    decreases |parts|
  {
    if |parts| == 1 {
      assert (parts + [p])[1..] == [p];
    } else {
      assert (parts + [p])[1..] == parts[1..] + [p];
      JoinSnoc(parts[1..], p, sep);
    }
  }

  /** Renderings are never empty, so their colon join is not either. */
  lemma JoinNonEmpty(parts: seq<string>)
    requires |parts| >= 1 && |parts[0]| >= 1
    ensures Join(parts, ":") != ""
  {
    if |parts| > 1 {
      assert |Join(parts, ":")| >= |parts[0]|;
    }
  }

  // ---------------------------------------------------------------------
  // Shaping results
  // ---------------------------------------------------------------------

  /** `mapToResponseDto`: every field copied, the cast replaced by the actor names in order. */
  function MapToResponseDto(m: Movie): (d: MovieDto)
    ensures d.id == m.id && d.title == m.title && d.kind == m.kind
    ensures d.description == m.description && d.releaseDate == m.releaseDate && d.coverImage == m.coverImage
    ensures d.averageRating == m.averageRating && d.totalRatings == m.totalRatings
    ensures d.createdAt == m.createdAt && d.updatedAt == m.updatedAt
    ensures |d.cast| == |m.cast| && forall i :: 0 <= i < |m.cast| ==> d.cast[i] == m.cast[i].actorName
  {
    MovieDto(m.id, m.title, m.description, m.releaseDate, m.coverImage, m.kind, m.averageRating,
             m.totalRatings, seq(|m.cast|, i requires 0 <= i < |m.cast| => m.cast[i].actorName),
             m.createdAt, m.updatedAt)
  }

  function MapAll(ms: seq<Movie>): (ds: seq<MovieDto>)
    ensures |ds| == |ms| && forall i :: 0 <= i < |ms| ==> ds[i] == MapToResponseDto(ms[i])
  {
    seq(|ms|, i requires 0 <= i < |ms| => MapToResponseDto(ms[i]))
  }

  /**
   * `buildPaginatedResult` for a validated limit: `totalPages` is the
   * ceiling of `total / limit`, there is a next page iff the page is below
   * it, and a previous one iff the page is past the first.
   */
  function BuildPaginatedResult<T>(data: seq<T>, total: nat, page: int, limit: int): (r: Page<T>)
    requires limit >= 1
    ensures r.data == data && r.total == total && r.page == page
    ensures r.totalPages >= 0 && (r.totalPages - 1) * limit < total <= r.totalPages * limit
    ensures r.hasNext <==> page < r.totalPages
    ensures r.hasPrevious <==> page > 1
  {
    var totalPages := CeilDiv(total, limit);
    Page(data, total, page, totalPages, page < totalPages, page > 1)
  }

  /** There is a next page iff the rows of the pages up to this one do not reach the total. */
  lemma HasNextIffRowsRemain<T>(data: seq<T>, total: nat, page: int, limit: int)
    requires limit >= 1 && page >= 1
    ensures BuildPaginatedResult(data, total, page, limit).hasNext <==> page * limit < total
  {
    var r := BuildPaginatedResult(data, total, page, limit);
    Pagination.RowsBeyond(page, limit, total, r.totalPages);
  }

  /** The shapes the unit tests expect for 50 rows two to a page, and for no rows. */
  lemma PaginationExamples<T>(data: seq<T>)
    ensures var first := BuildPaginatedResult(data, 50, 1, 2);
      first.totalPages == 25 && first.hasNext && !first.hasPrevious
    ensures var last := BuildPaginatedResult(data, 50, 25, 2);
      last.totalPages == 25 && !last.hasNext && last.hasPrevious
    ensures var middle := BuildPaginatedResult(data, 50, 5, 2);
      middle.hasNext && middle.hasPrevious
    ensures var empty := BuildPaginatedResult(data, 0, 1, 10);
      empty.totalPages == 0 && !empty.hasNext && !empty.hasPrevious
  {
    CeilDivUnique(50, 2, 25);
    CeilDivUnique(0, 10, 0);
  }

  // ---------------------------------------------------------------------
  // The cached reads
  // ---------------------------------------------------------------------

  datatype Cached<T> = Cached(value: T, ttl: int)

  /** The cache manager's entries, one map per kind of value. */
  datatype Cache = Cache(pages: map<string, Cached<Page<MovieDto>>>, movies: map<string, Cached<MovieDto>>)

  /** Whether the cache answers reads and accepts writes; a failure is logged and ignored. */
  datatype CacheEnv = CacheEnv(getUp: bool, setUp: bool)

  /** The options `findTopRated` is called with. */
  datatype FindOptions = FindOptions(kind: Option<ContentType>, page: int, limit: int, minRating: Option<real>, searchQuery: Option<string>)

  /** The repository's answer to `findTopRated`: one page of movies and the total. */
  datatype Found = Found(movies: seq<Movie>, total: nat)

  /** A read's outcome: the cache after it, the answer, and the repository queries it issued. */
  datatype Outcome<T, Q> = Outcome(cache: Cache, result: Result<T, CatalogError>, queries: seq<Q>)

  /** `SearchOptions` as the controller builds it: both keys always present. */
  datatype SearchOptions = SearchOptions(query: Option<string>, minRating: Option<real>)

  /**
   * The object `getTopRated` keys its cache on:
   * `{ type, ...pagination, ...searchOptions }`. `show` is JavaScript's
   * number-to-text conversion for the minimum rating.
   */
  function TopRatedParams(kind: Option<ContentType>, page: int, limit: int, opts: SearchOptions, show: real -> string): Entries {
    var typeEntry := [("type", if kind.Some? then Some(TypeName(kind.value)) else None)];
    var pagination := [("page", Some(IntToString(page))), ("limit", Some(IntToString(limit)))];
    var search := [("query", opts.query), ("minRating", if opts.minRating.Some? then Some(show(opts.minRating.value)) else None)];
    Spread(Spread(typeEntry, pagination), search)
  }

  /** The entries of the example the unit test checks, in spread order. */
  function ExampleEntries(): Entries {
    [("type", Some("TV_SHOW")), ("page", Some("2")), ("limit", Some("5")), ("query", Some("breaking")), ("minRating", Some("4"))]
  }

  lemma ExampleSpread(show: real -> string)
    requires show(4.0) == "4"
    ensures TopRatedParams(Some(TvShow), 2, 5, SearchOptions(Some("breaking"), Some(4.0)), show) == ExampleEntries()
  {
    var t0: Entries := [("type", Some("TV_SHOW"))];
    assert Keys(t0) == ["type"];
    var t1 := Assign(t0, "page", Some("2"));
    assert t1 == t0 + [("page", Some("2"))];
    assert Keys(t1) == ["type", "page"];
    var t2 := Assign(t1, "limit", Some("5"));
    assert t2 == t1 + [("limit", Some("5"))];
    assert Keys(t2) == ["type", "page", "limit"];
    var t3 := Assign(t2, "query", Some("breaking"));
    assert t3 == t2 + [("query", Some("breaking"))];
    assert Keys(t3) == ["type", "page", "limit", "query"];
    var t4 := Assign(t3, "minRating", Some("4"));
    assert t4 == t3 + [("minRating", Some("4"))];
    assert IntToString(2) == "2" && IntToString(5) == "5";
    SpreadTwo(t0, ("page", Some("2")), ("limit", Some("5")));
    SpreadTwo(t2, ("query", Some("breaking")), ("minRating", Some("4")));
  }

  lemma ExampleRendered()
    ensures Rendered(Defined(ExampleEntries())) == ["type:TV_SHOW", "page:2", "limit:5", "query:breaking", "minRating:4"]
  {
    var e := ExampleEntries();
    assert Defined(e[..1]) == [("type", "TV_SHOW")] + Defined([]);
    DefinedSnoc(e[..1], "page", "2");
    assert e[..2] == e[..1] + [("page", Some("2"))];
    DefinedSnoc(e[..2], "limit", "5");
    assert e[..3] == e[..2] + [("limit", Some("5"))];
    DefinedSnoc(e[..3], "query", "breaking");
    assert e[..4] == e[..3] + [("query", Some("breaking"))];
    DefinedSnoc(e[..4], "minRating", "4");
    assert e == e[..4] + [("minRating", Some("4"))];
    var kvs := Defined(e);
    assert kvs == [("type", "TV_SHOW"), ("page", "2"), ("limit", "5"), ("query", "breaking"), ("minRating", "4")];
    var r := Rendered(kvs);
    assert r[0] == "type:TV_SHOW" && r[1] == "page:2" && r[2] == "limit:5";
    assert r[3] == "query:breaking" && r[4] == "minRating:4";
  }

  /** The parts the unit test's key is made of: `top-movies:type:TV_SHOW:page:2:limit:5:query:breaking:minRating:4`. */
  function ExampleKeyParts(): seq<string> {
    ["top-movies", "type", "TV_SHOW", "page", "2", "limit", "5", "query", "breaking", "minRating", "4"]
  }

  lemma ExampleParts()
    ensures ColonFreeParams("top-movies", ExampleEntries())
    ensures KeyParts("top-movies", Defined(ExampleEntries())) == ExampleKeyParts()
  {
    ExampleRendered();
    var kvs := Defined(ExampleEntries());
    assert kvs[..1][..0] == [] && kvs[..2][..1] == kvs[..1] && kvs[..3][..2] == kvs[..2] && kvs[..4][..3] == kvs[..3];
    assert KeyParts("top-movies", kvs[..1]) == ["top-movies", "type", "TV_SHOW"];
    assert KeyParts("top-movies", kvs[..2]) == ["top-movies", "type", "TV_SHOW", "page", "2"];
    assert KeyParts("top-movies", kvs[..3]) == ["top-movies", "type", "TV_SHOW", "page", "2", "limit", "5"];
    assert KeyParts("top-movies", kvs[..4]) == ["top-movies", "type", "TV_SHOW", "page", "2", "limit", "5", "query", "breaking"];
  }

  /**
   * The key the unit test expects for TV shows, page 2 of 5, query
   * `breaking` and minimum rating 4: split at its colons, it is exactly
   * the parts of `top-movies:type:TV_SHOW:page:2:limit:5:query:breaking:minRating:4`.
   */
  lemma TopRatedKeyExample(show: real -> string)
    requires show(4.0) == "4"
    ensures Split(BuildCacheKey("top-movies", TopRatedParams(Some(TvShow), 2, 5, SearchOptions(Some("breaking"), Some(4.0)), show)), ':')
      == ExampleKeyParts()
  {
    ExampleSpread(show);
    ExampleParts();
    CacheKeySplits("top-movies", ExampleEntries());
  }

  /**
   * `getTopRated`: validate; on a cache hit return the stored page without
   * asking the repository; otherwise query it once, shape the page, store
   * it for `CACHE_TTL / 2` and return it.
   */
  function GetTopRated(
    cache: Cache, kind: Option<ContentType>, page: int, limit: int, opts: SearchOptions,
    show: real -> string, env: CacheEnv, findTopRated: FindOptions -> Found): (o: Outcome<Page<MovieDto>, FindOptions>)
    ensures ValidatePagination(page, limit).Failure? ==> o == Outcome(cache, Failure(ValidatePagination(page, limit).error), [])
    ensures o.result.Success? <==> ValidatePagination(page, limit).Success?
    ensures |o.queries| <= 1
    ensures o.cache.movies == cache.movies
  {
    match ValidatePagination(page, limit)
    case Failure(e) => Outcome(cache, Failure(e), [])
    case Success(_) =>
      var key := BuildCacheKey("top-movies", TopRatedParams(kind, page, limit, opts, show));
      if env.getUp && key in cache.pages then Outcome(cache, Success(cache.pages[key].value), [])
      else
        var q := FindOptions(kind, page, limit, opts.minRating, opts.query);
        var found := findTopRated(q);
        var result := BuildPaginatedResult(MapAll(found.movies), found.total, page, limit);
        var cache' := if env.setUp then cache.(pages := cache.pages[key := Cached(result, CacheTtl / 2)]) else cache;
        Outcome(cache', Success(result), [q])
  }

  /** The entries of `{ type, ...pagination }`. */
  function BaseParams(kind: Option<ContentType>, page: int, limit: int): Entries {
    [("type", if kind.Some? then Some(TypeName(kind.value)) else None), ("page", Some(IntToString(page))), ("limit", Some(IntToString(limit)))]
  }

  /** The top-rated key object lists type, page, limit, query and minRating, in that order. */
  lemma TopRatedParamsShape(kind: Option<ContentType>, page: int, limit: int, opts: SearchOptions, show: real -> string)
    ensures TopRatedParams(kind, page, limit, opts, show)
      == BaseParams(kind, page, limit) + [("query", opts.query), ("minRating", if opts.minRating.Some? then Some(show(opts.minRating.value)) else None)]
  {
    var base := BaseParams(kind, page, limit);
    var t0: Entries := [base[0]];
    assert Keys(t0) == ["type"];
    var t1 := Assign(t0, "page", base[1].1);
    assert t1 == t0 + [base[1]];
    assert Keys(t1) == ["type", "page"];
    var t2 := Assign(t1, "limit", base[2].1);
    assert t2 == base;
    assert Keys(t2) == ["type", "page", "limit"];
    var mr := if opts.minRating.Some? then Some(show(opts.minRating.value)) else None;
    var t3 := Assign(t2, "query", opts.query);
    assert t3 == base + [("query", opts.query)];
    assert Keys(t3) == ["type", "page", "limit", "query"];
    SpreadTwo(t0, base[1], base[2]);
    SpreadTwo(t2, ("query", opts.query), ("minRating", mr));
  }

  /** An undefined entry at the end is dropped. */
  lemma {:induction false} DefinedSnocUndefined(params: Entries, k: string)
    ensures Defined(params + [(k, None)]) == Defined(params)
    decreases |params|
  {
    if params != [] {
      assert (params + [(k, None)])[1..] == params[1..] + [(k, None)];
      DefinedSnocUndefined(params[1..], k);
    }
  }

  /** The kept entries of the base object: page and limit always, type when given. */
  lemma BaseDefined(kind: Option<ContentType>, page: int, limit: int)
    ensures var d := Defined(BaseParams(kind, page, limit));
      |d| >= 2 && |d[0].0| >= 1
  {
    var base := BaseParams(kind, page, limit);
    var tail := [("limit", Some(IntToString(limit)))];
    assert base[1..] == [("page", Some(IntToString(page)))] + tail;
    assert base[1..][1..] == tail;
    assert tail[1..] == [];
    assert Defined(tail) == [("limit", IntToString(limit))];
    assert |Defined(base[1..])| == 2;
  }

  lemma RenderedAppend(a: seq<(string, string)>, b: seq<(string, string)>)
    ensures Rendered(a + b) == Rendered(a) + Rendered(b)
  {
  }

  /** The kept entries of a top-rated request, by whether each search option is defined. */
  lemma TopRatedDefined(kind: Option<ContentType>, page: int, limit: int, opts: SearchOptions, show: real -> string)
    ensures var base := Defined(BaseParams(kind, page, limit));
      var d := Defined(TopRatedParams(kind, page, limit, opts, show));
      && (opts.query.Some? && opts.minRating.None? ==> d == base + [("query", opts.query.value)])
      && (opts.query.Some? && opts.minRating.Some? ==> d == base + [("query", opts.query.value), ("minRating", show(opts.minRating.value))])
  {
    TopRatedParamsShape(kind, page, limit, opts, show);
    var base := BaseParams(kind, page, limit);
    var mr := if opts.minRating.Some? then Some(show(opts.minRating.value)) else None;
    assert base + [("query", opts.query), ("minRating", mr)] == (base + [("query", opts.query)]) + [("minRating", mr)];
    if opts.query.Some? {
      DefinedSnoc(base, "query", opts.query.value);
      if opts.minRating.Some? {
        DefinedSnoc(base + [("query", opts.query)], "minRating", mr.value);
      } else {
        DefinedSnocUndefined(base + [("query", opts.query)], "minRating");
      }
    }
  }

  lemma GlueText(q: string, r: string)
    ensures "query" + ":" + (q + ":minRating:" + r) == ("query" + ":" + q) + ":" + ("minRating" + ":" + r)
  {
    assert ":minRating:" == ":" + ("minRating" + ":");
    var l := ":" + ("minRating" + ":");
    assert q + ":minRating:" + r == q + l + r;
  }

  /** Joining two more parts appends each after a separator. */
  lemma JoinSnocTwo(rb: seq<string>, y: string, z: string)
    requires |rb| >= 1
    ensures Join(rb + [y, z], ":") == Join(rb, ":") + ":" + y + ":" + z
  {
    assert rb + [y, z] == (rb + [y]) + [z];
    JoinSnoc(rb + [y], z, ":");
    JoinSnoc(rb, y, ":");
  }

  /** Two joined parts read the same as one part holding them and the separator. */
  lemma JoinGlue(rb: seq<string>, y: string, z: string)
    requires |rb| >= 1
    ensures Join(rb + [y + ":" + z], ":") == Join(rb + [y, z], ":")
  {
    JoinSnoc(rb, y + ":" + z, ":");
    JoinSnocTwo(rb, y, z);
  }

  /**
   * The cache key does not separate its parts unambiguously: a search for
   * `q:minRating:r` without a minimum rating and a search for `q` with
   * minimum rating `r` get the same key.
   */
  lemma CacheKeyCollision(kind: Option<ContentType>, page: int, limit: int, q: string, m: real, show: real -> string)
    ensures var glued := SearchOptions(Some(q + ":minRating:" + show(m)), None);
      var apart := SearchOptions(Some(q), Some(m));
      BuildCacheKey("top-movies", TopRatedParams(kind, page, limit, glued, show))
        == BuildCacheKey("top-movies", TopRatedParams(kind, page, limit, apart, show))
  {
    var r := show(m);
    var db := Defined(BaseParams(kind, page, limit));
    TopRatedDefined(kind, page, limit, SearchOptions(Some(q + ":minRating:" + r), None), show);
    TopRatedDefined(kind, page, limit, SearchOptions(Some(q), Some(m)), show);
    BaseDefined(kind, page, limit);
    RenderedAppend(db, [("query", q + ":minRating:" + r)]);
    RenderedAppend(db, [("query", q), ("minRating", r)]);
    var rb := Rendered(db);
    assert Rendered([("query", q + ":minRating:" + r)]) == ["query" + ":" + (q + ":minRating:" + r)];
    assert Rendered([("query", q), ("minRating", r)]) == ["query" + ":" + q, "minRating" + ":" + r];
    GlueText(q, r);
    JoinGlue(rb, "query" + ":" + q, "minRating" + ":" + r);
    JoinNonEmpty(rb + ["query" + ":" + (q + ":minRating:" + r)]);
  }

  /**
   * Because of that collision, the page cached for the glued search is
   * served, without a repository query, to the search with the rating
   * apart, although the repository was asked for a different filter.
   */
  lemma CollidingSearchesShareAPage(
    cache: Cache, kind: Option<ContentType>, page: int, limit: int, q: string, m: real,
    show: real -> string, findTopRated: FindOptions -> Found, other: FindOptions -> Found)
    requires ValidatePagination(page, limit).Success?
    requires BuildCacheKey("top-movies", TopRatedParams(kind, page, limit, SearchOptions(Some(q + ":minRating:" + show(m)), None), show)) !in cache.pages
    ensures var first := GetTopRated(cache, kind, page, limit, SearchOptions(Some(q + ":minRating:" + show(m)), None), show, CacheEnv(true, true), findTopRated);
      var second := GetTopRated(first.cache, kind, page, limit, SearchOptions(Some(q), Some(m)), show, CacheEnv(true, true), other);
      && first.queries == [FindOptions(kind, page, limit, None, Some(q + ":minRating:" + show(m)))]
      && second.queries == [] && second.result == first.result
  {
    var glued := SearchOptions(Some(q + ":minRating:" + show(m)), None);
    var apart := SearchOptions(Some(q), Some(m));
    CacheKeyCollision(kind, page, limit, q, m, show);
    var key := BuildCacheKey("top-movies", TopRatedParams(kind, page, limit, glued, show));
    assert key == BuildCacheKey("top-movies", TopRatedParams(kind, page, limit, apart, show));
    var first := GetTopRated(cache, kind, page, limit, glued, show, CacheEnv(true, true), findTopRated);
    assert key in first.cache.pages && first.cache.pages[key].value == first.result.value;
  }

  /** A stored page is returned as it is, and the repository is not asked. */
  lemma TopRatedHitSkipsRepository(
    cache: Cache, kind: Option<ContentType>, page: int, limit: int, opts: SearchOptions,
    show: real -> string, env: CacheEnv, findTopRated: FindOptions -> Found)
    requires ValidatePagination(page, limit).Success? && env.getUp
    requires BuildCacheKey("top-movies", TopRatedParams(kind, page, limit, opts, show)) in cache.pages
    ensures var o := GetTopRated(cache, kind, page, limit, opts, show, env, findTopRated);
      o.queries == [] && o.cache == cache
      && o.result == Success(cache.pages[BuildCacheKey("top-movies", TopRatedParams(kind, page, limit, opts, show))].value)
  {
  }

  /**
   * A miss, or a cache that fails to answer, queries the repository once
   * with the validated options and returns the page built from its answer,
   * whether or not the cache then accepts it.
   */
  lemma TopRatedMissQueriesOnce(
    cache: Cache, kind: Option<ContentType>, page: int, limit: int, opts: SearchOptions,
    show: real -> string, env: CacheEnv, findTopRated: FindOptions -> Found)
    requires ValidatePagination(page, limit).Success?
    requires !env.getUp || BuildCacheKey("top-movies", TopRatedParams(kind, page, limit, opts, show)) !in cache.pages
    ensures var o := GetTopRated(cache, kind, page, limit, opts, show, env, findTopRated);
      var q := FindOptions(kind, page, limit, opts.minRating, opts.query);
      var found := findTopRated(q);
      && o.queries == [q]
      && o.result.Success?
      && o.result.value.data == MapAll(found.movies) && o.result.value.total == found.total
      && (!env.setUp ==> o.cache == cache)
  {
  }

  /**
   * Read-through: right after a miss that the cache stored, the same
   * request is answered from the cache with the same page and no query.
   */
  lemma TopRatedRepeatIsServedFromCache(
    cache: Cache, kind: Option<ContentType>, page: int, limit: int, opts: SearchOptions,
    show: real -> string, findTopRated: FindOptions -> Found, other: FindOptions -> Found)
    requires ValidatePagination(page, limit).Success?
    ensures var first := GetTopRated(cache, kind, page, limit, opts, show, CacheEnv(true, true), findTopRated);
      var second := GetTopRated(first.cache, kind, page, limit, opts, show, CacheEnv(true, true), other);
      second.result == first.result && second.queries == [] && second.cache == first.cache
  {
  }

  /** `getMovieById`'s cache key: `movie:id:<id>`. */
  function MovieKey(id: string): (k: string)
    ensures k == "movie:id:" + id
  {
    var key := BuildCacheKey("movie", [("id", Some(id))]);
    assert Defined([("id", Some(id))]) == [("id", id)];
    assert Rendered([("id", id)])[0] == "id" + ":" + id;
    assert "id" + ":" + id == "id:" + id;
    assert Join(["id:" + id], ":") == "id:" + id;
    key
  }

  /**
   * `getMovieById`: validate the id; on a cache hit return the stored
   * movie; otherwise look it up once, raise NotFound when it is missing,
   * and store the response for `CACHE_TTL * 2` when it is found.
   */
  function GetMovieById(cache: Cache, id: Option<string>, env: CacheEnv, findById: string -> Option<Movie>): (o: Outcome<MovieDto, string>)
    ensures ValidateId(id).Failure? ==> o == Outcome(cache, Failure(BadRequest("Movie ID cannot be empty")), [])
    ensures o.cache.pages == cache.pages
    ensures o.result.Failure? ==> o.cache == cache
  {
    match ValidateId(id)
    case Failure(e) => Outcome(cache, Failure(e), [])
    case Success(mid) =>
      var key := MovieKey(mid);
      if env.getUp && key in cache.movies then Outcome(cache, Success(cache.movies[key].value), [])
      else
        match findById(mid)
        case None => Outcome(cache, Failure(NotFound("Movie with ID " + mid + " not found")), [mid])
        case Some(movie) =>
          var dto := MapToResponseDto(movie);
          var cache' := if env.setUp then cache.(movies := cache.movies[key := Cached(dto, CacheTtl * 2)]) else cache;
          Outcome(cache', Success(dto), [mid])
  }

  /** A missing movie is reported as NotFound after one lookup, and nothing is cached. */
  lemma MissingMovieIsNotFound(cache: Cache, id: string, env: CacheEnv, findById: string -> Option<Movie>)
    requires !IsBlank(id) && findById(id).None?
    requires !env.getUp || MovieKey(id) !in cache.movies
    ensures var o := GetMovieById(cache, Some(id), env, findById);
      o.result == Failure(NotFound("Movie with ID " + id + " not found")) && o.queries == [id] && o.cache == cache
  {
  }

  /**
   * A found movie is returned as its response with the cast names in
   * order, and is stored under `movie:id:<id>` when the cache accepts it.
   */
  lemma FoundMovieIsCached(cache: Cache, id: string, env: CacheEnv, findById: string -> Option<Movie>)
    requires !IsBlank(id) && findById(id).Some?
    requires !env.getUp || MovieKey(id) !in cache.movies
    ensures var o := GetMovieById(cache, Some(id), env, findById);
      var m := findById(id).value;
      && o.result.Success? && o.queries == [id]
      && o.result.value.cast == seq(|m.cast|, i requires 0 <= i < |m.cast| => m.cast[i].actorName)
      && (env.setUp ==> "movie:id:" + id in o.cache.movies && o.cache.movies["movie:id:" + id] == Cached(o.result.value, 600))
      && (!env.setUp ==> o.cache == cache)
  {
  }

  /** A stored movie is returned without a lookup. */
  lemma MovieHitSkipsRepository(cache: Cache, id: string, findById: string -> Option<Movie>)
    requires !IsBlank(id) && MovieKey(id) in cache.movies
    ensures var o := GetMovieById(cache, Some(id), CacheEnv(true, true), findById);
      o.result == Success(cache.movies[MovieKey(id)].value) && o.queries == [] && o.cache == cache
  {
  }
}
