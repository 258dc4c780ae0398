/**
 * The search controller (`SearchController`): its two query-string
 * validators, the top-rated page arithmetic, the suggestions guard, the
 * advanced-query assembly and the response messages; and the search
 * engine's choice between a text search and the top-rated listing, which
 * decides the offset a request reads from.
 *
 * Query-string values arrive as text and are read with `parseInt`, so a
 * page or limit may be NaN. The content type is the raw query-string text.
 */
module SearchController {
  import opened Wrappers
  import opened Text
  import opened JsNumber
  import Pagination
  import JsonText

  /** A rejected request: HTTP 400 with its message. */
  datatype SearchError = BadRequest(message: string)

  /** The filters the general validator hands to the engine. */
  datatype Filters = Filters(kind: Option<string>, page: Num, limit: Num)

  /** The filters of the top-rated listing: a zero-based page and a clamped limit. */
  datatype TopRatedFilters = TopRatedFilters(kind: Option<string>, page: nat, limit: int)

  /** `Object.values(ContentType).includes(t)`. */
  predicate KnownType(t: string) {
    t == "MOVIE" || t == "TV_SHOW"
  }

  /** A type passes when it is absent, empty, or one of the enum values. */
  predicate TypeAccepted(kind: Option<string>) {
    !TruthyText(kind) || KnownType(kind.value)
  }

  // ---------------------------------------------------------------------
  // The general validator
  // ---------------------------------------------------------------------

  /**
   * `validateAndBuildFilters`: page, then limit, then type. A page or limit
   * that does not parse is NaN and passes both range checks.
   */
  function ValidateAndBuildFilters(page: string, limit: string, kind: Option<string>): (r: Result<Filters, SearchError>)
    ensures var p := ParseInt(page); var l := ParseInt(limit);
      r.Success? <==> !Below(p, 1.0) && !Below(l, 1.0) && !Above(l, 50.0) && TypeAccepted(kind)
    ensures Below(ParseInt(page), 1.0) ==> r == Failure(BadRequest("Page must be greater than 0"))
    ensures r.Success? ==> r.value == Filters(kind, ParseInt(page), ParseInt(limit))
    ensures r.Success? ==> (r.value.limit.NaN? || (IsInteger(r.value.limit.v) && 1.0 <= r.value.limit.v <= 50.0))
  {
    var pageNum := ParseInt(page);
    var limitNum := ParseInt(limit);
    if Below(pageNum, 1.0) then Failure(BadRequest("Page must be greater than 0"))
    else if Below(limitNum, 1.0) || Above(limitNum, 50.0) then Failure(BadRequest("Limit must be between 1 and 50"))
    else if TruthyText(kind) && !KnownType(kind.value) then Failure(BadRequest("Invalid type. Must be MOVIE or TV_SHOW"))
    else Success(Filters(kind, pageNum, limitNum))
  }

  /** The engine's own check never rejects filters the controller accepted. */
  lemma EngineAcceptsValidatedFilters(page: string, limit: string, kind: Option<string>)
    requires ValidateAndBuildFilters(page, limit, kind).Success?
    ensures var f := ValidateAndBuildFilters(page, limit, kind).value;
      Pagination.ValidatePagination(f.page, f.limit).Success?
  {
  }

  /**
   * A page written as an integer passes iff it is at least 1; a page that
   * does not parse passes too, and reaches the engine as NaN, whose offset
   * is NaN.
   */
  lemma PageCheckOfIntegerText(n: int, limit: int, kind: Option<string>)
    requires 1 <= limit <= 50 && TypeAccepted(kind)
    ensures ValidateAndBuildFilters(IntToString(n), IntToString(limit), kind).Success? <==> n >= 1
  {
    ParseIntRoundTrip(n);
    ParseIntRoundTrip(limit);
  }

  lemma UnparsablePageReachesEngine(page: string, limit: int, kind: Option<string>)
    requires ParseInt(page).NaN? && 1 <= limit <= 50 && TypeAccepted(kind)
    ensures var r := ValidateAndBuildFilters(page, IntToString(limit), kind);
      r.Success? && r.value.page.NaN?
      && Pagination.ValidatePagination(r.value.page, r.value.limit).Success?
      && Pagination.CalculateOffset(r.value.page, r.value.limit).NaN?
  {
    ParseIntRoundTrip(limit);
  }

  // ---------------------------------------------------------------------
  // The top-rated validator and page arithmetic
  // ---------------------------------------------------------------------

  /**
   * `Math.min(Math.max(parseInt(limit, 10) || 10, 1), 50)` for the integer
   * or NaN that `parseInt` gives.
   */
  function ClampLimit(n: Num): (l: int)
    requires n.Fin? ==> IsInteger(n.v)
    ensures 1 <= l <= 50
    ensures !Truthy(n) ==> l == 10
    ensures Truthy(n) && 1.0 <= n.v <= 50.0 ==> l as real == n.v
    ensures Truthy(n) && n.v < 1.0 ==> l == 1
    ensures Truthy(n) && n.v > 50.0 ==> l == 50
  {
    var x := if Truthy(n) then n.v else 10.0;
    var y := if x < 1.0 then 1.0 else x;
    var z := if y > 50.0 then 50.0 else y;
    z.Floor
  }

  /**
   * `validateAndBuildTopRatedFilters`: the limit is clamped and never
   * rejected; the page is zero-based, and NaN or a negative page is
   * rejected before the type is checked.
   */
  function ValidateAndBuildTopRatedFilters(page: string, limit: string, kind: Option<string>): (r: Result<TopRatedFilters, SearchError>)
    ensures var p := ParseInt(page);
      r.Success? <==> p.Fin? && p.v >= 0.0 && TypeAccepted(kind)
    ensures ParseInt(page).NaN? || Below(ParseInt(page), 0.0) ==> r == Failure(BadRequest("Page must be a non-negative integer"))
    ensures r.Success? ==> r.value.page as real == ParseInt(page).v && r.value.kind == kind
    ensures r.Success? ==> r.value.limit == ClampLimit(ParseInt(limit))
  {
    var limitNum := ClampLimit(ParseInt(limit));
    var clientPage := ParseInt(page);
    if clientPage.NaN? || clientPage.v < 0.0 then Failure(BadRequest("Page must be a non-negative integer"))
    else if TruthyText(kind) && !KnownType(kind.value) then Failure(BadRequest("Invalid type. Must be MOVIE or TV_SHOW"))
    else
      var servicePage := if clientPage.v < 0.0 then 0 else clientPage.v.Floor;
      Success(TopRatedFilters(kind, servicePage, limitNum))
  }

  /** A page written as an integer passes the top-rated check iff it is not negative; 0 is the first page. */
  lemma TopRatedPageOfIntegerText(n: int, limit: string, kind: Option<string>)
    requires TypeAccepted(kind)
    ensures var r := ValidateAndBuildTopRatedFilters(IntToString(n), limit, kind);
      (r.Success? <==> n >= 0) && (r.Success? ==> r.value.page == n)
  {
    ParseIntRoundTrip(n);
  }

  /** An unparsable or zero limit becomes 10; an integer limit in range is kept. */
  lemma TopRatedLimitOfIntegerText(page: string, n: int, kind: Option<string>)
    requires ValidateAndBuildTopRatedFilters(page, IntToString(n), kind).Success?
    ensures var f := ValidateAndBuildTopRatedFilters(page, IntToString(n), kind).value;
      (n == 0 ==> f.limit == 10) && (1 <= n <= 50 ==> f.limit == n)
      && (n < 0 ==> f.limit == 1) && (n > 50 ==> f.limit == 50)
  {
    ParseIntRoundTrip(n);
  }

  /** The `data` block of a top-rated answer, without the movies. */
  datatype TopRatedPage = TopRatedPage(total: nat, page: nat, totalPages: int, hasMore: bool)

  /**
   * `hasMore = (page + 1) * limit < total` and
   * `totalPages = Math.ceil(total / limit)` for the zero-based page.
   */
  function BuildTopRatedPage(total: nat, f: TopRatedFilters): (r: TopRatedPage)
    requires 1 <= f.limit
    ensures r.total == total && r.page == f.page
    ensures r.totalPages >= 0 && (r.totalPages - 1) * f.limit < total <= r.totalPages * f.limit
    ensures r.hasMore <==> (f.page + 1) * f.limit < total
  {
    TopRatedPage(total, f.page, CeilDiv(total, f.limit), (f.page + 1) * f.limit < total)
  }

  /** There is more iff the next zero-based page is one of the `totalPages` pages. */
  lemma HasMoreIffNextPageExists(total: nat, f: TopRatedFilters)
    requires 1 <= f.limit
    ensures var r := BuildTopRatedPage(total, f);
      r.hasMore <==> f.page + 1 < r.totalPages
  {
    var r := BuildTopRatedPage(total, f);
    Pagination.RowsBeyond(f.page + 1, f.limit, total, r.totalPages);
  }

  // ---------------------------------------------------------------------
  // The engine's route and the offset it reads from
  // ---------------------------------------------------------------------

  /** What `searchMovies` in the engine does with a query. */
  datatype Route = TextSearch(text: string) | TopRatedListing

  /** A text search needs a trimmed query of at least two characters; otherwise the top-rated listing is served. */
  function EngineRoute(query: Option<string>): (r: Route)
    ensures r.TextSearch? <==> query.Some? && |Trim(query.value)| >= 2
    ensures r.TextSearch? ==> r.text == Trim(query.value)
  {
    if query.Some? && Trim(query.value) != "" && |Trim(query.value)| >= 2 then TextSearch(Trim(query.value)) else TopRatedListing
  }

  /** `Math.max(0, n)`, NaN staying NaN. */
  function AtLeastZero(n: Num): Num {
    if n.Fin? && n.v < 0.0 then Fin(0.0) else n
  }

  /**
   * The offset `searchMovies` reads from, as written: a text search uses
   * the one-based calculator, while the top-rated listing it falls back
   * to multiplies the page by the limit as if it were zero-based.
   */
  function SearchMoviesOffset(query: Option<string>, page: Num, limit: Num): (r: Num)
    ensures r.Fin? <==> page.Fin? && limit.Fin?
    ensures EngineRoute(query).TextSearch? ==> r == Pagination.CalculateOffset(page, limit)
    ensures EngineRoute(query).TopRatedListing? && page.Fin? && limit.Fin? && page.v >= 1.0 ==>
      r.v == Pagination.CalculateOffset(page, limit).v + limit.v
    ensures EngineRoute(query).TopRatedListing? && page.Fin? && limit.Fin? && page.v < 0.0 ==> r == Fin(0.0)
  {
    match EngineRoute(query)
    case TextSearch(_) => Pagination.CalculateOffset(page, limit)
    case TopRatedListing =>
      var p := AtLeastZero(page);
      if p.NaN? || limit.NaN? then NaN else Fin(p.v * limit.v)
  }

  /**
   * With no usable query, every page of the movie search starts one whole
   * page later than the one-based offset: page p reads from row p * limit.
   */
  lemma UnqueriedPagesSkipOnePage(query: Option<string>, page: int, limit: int)
    requires EngineRoute(query).TopRatedListing? && page >= 1 && 1 <= limit <= 50
    ensures SearchMoviesOffset(query, Fin(page as real), Fin(limit as real)) == Fin((page * limit) as real)
    ensures SearchMoviesOffset(query, Fin(page as real), Fin(limit as real)).v
      == IntendedSearchMoviesOffset(query, Fin(page as real), Fin(limit as real)).v + limit as real
  {
  }

  /**
   * With no usable query, page 1 of the movie search starts after the
   * first `limit` rows, while page 1 of a text search starts at row 0.
   */
  lemma UnqueriedFirstPageSkipsRows(limit: int)
    requires 1 <= limit <= 50
    ensures SearchMoviesOffset(None, Fin(1.0), Fin(limit as real)) == Fin(limit as real)
    ensures SearchMoviesOffset(Some("inception"), Fin(1.0), Fin(limit as real)) == Fin(0.0)
  {
    var q := "inception";
    assert !IsWhitespace(q[0]) && !IsWhitespace(q[|q| - 1]);
    assert Trim(q) == q by {
      assert TrimStart(q) == q;
      assert TrimEnd(q) == q;
    }
  }

  /** The offset meant for both routes: the one-based calculator. */
  function IntendedSearchMoviesOffset(query: Option<string>, page: Num, limit: Num): (r: Num)
    ensures page.Fin? && limit.Fin? && page.v >= 1.0 && limit.v >= 0.0 ==> r.Fin? && r.v >= 0.0
  {
    Pagination.CalculateOffset(page, limit)
  }

  /**
   * With the intended offset every route starts page `p` after the rows of
   * the `p - 1` pages before it, and page 1 at row 0.
   */
  lemma IntendedPagesAreOneBased(query: Option<string>, page: int, limit: int)
    requires page >= 1 && 1 <= limit <= 50
    ensures IntendedSearchMoviesOffset(query, Fin(page as real), Fin(limit as real)) == Fin(((page - 1) * limit) as real)
    ensures IntendedSearchMoviesOffset(query, Fin(1.0), Fin(limit as real)) == Fin(0.0)
  {
    Pagination.OffsetIsMultiple(page, limit);
  }

  // ---------------------------------------------------------------------
  // Suggestions and the advanced query
  // ---------------------------------------------------------------------

  /**
   * The suggestions guard: a missing query, or one whose trimmed length is
   * below 2, is rejected; otherwise the trimmed query is searched on page 1
   * with 5 results.
   */
  function SuggestionRequest(query: Option<string>): (r: Result<(string, int, int), SearchError>)
    ensures r.Success? <==> query.Some? && |Trim(query.value)| >= 2
    ensures r.Failure? ==> r.error == BadRequest("Query must be at least 2 characters long")
    ensures r.Success? ==> r.value == (Trim(query.value), 1, 5)
  {
    if !TruthyText(query) || |Trim(query.value)| < 2 then Failure(BadRequest("Query must be at least 2 characters long"))
    else Success((Trim(query.value), 1, 5))
  }

  /** An accepted suggestion query always reaches the text search, on page 1 at offset 0. */
  lemma SuggestionsAreTextSearches(query: Option<string>)
    requires SuggestionRequest(query).Success?
    ensures var (text, page, limit) := SuggestionRequest(query).value;
      && EngineRoute(Some(text)) == TextSearch(text)
      && Pagination.ValidatePagination(Fin(page as real), Fin(limit as real)).Success?
      && IntendedSearchMoviesOffset(Some(text), Fin(page as real), Fin(limit as real)) == Fin(0.0)
  {
    TrimIdempotent(query.value);
  }

  /** The seven optional criteria of the advanced search, as raw query-string text. */
  datatype AdvancedCriteria = AdvancedCriteria(
    title: Option<string>, description: Option<string>, cast: Option<string>,
    minRating: Option<string>, maxRating: Option<string>,
    afterYear: Option<string>, beforeYear: Option<string>)

  /** The part a criterion adds: `text` when the criterion is truthy, nothing otherwise. */
  function PartIf(c: Option<string>, text: string): seq<string> {
    if TruthyText(c) then [text] else []
  }

  /** Whether a criterion adds a part. */
  function CountIf(c: Option<string>): nat {
    if TruthyText(c) then 1 else 0
  }

  /**
   * The `queryParts` list: one part per truthy criterion, in the order
   * title, description, cast, minimum, maximum, after, before, with the
   * rating and year criteria worded.
   */
  function AdvancedParts(a: AdvancedCriteria): (parts: seq<string>)
    ensures |parts| == CountIf(a.title) + CountIf(a.description) + CountIf(a.cast) + CountIf(a.minRating)
      + CountIf(a.maxRating) + CountIf(a.afterYear) + CountIf(a.beforeYear)
  {
    PartIf(a.title, a.title.GetOr("")) + PartIf(a.description, a.description.GetOr("")) + PartIf(a.cast, a.cast.GetOr(""))
    + PartIf(a.minRating, "at least " + a.minRating.GetOr("") + " stars")
    + PartIf(a.maxRating, "at most " + a.maxRating.GetOr("") + " stars")
    + PartIf(a.afterYear, "after " + a.afterYear.GetOr(""))
    + PartIf(a.beforeYear, "before " + a.beforeYear.GetOr(""))
  }

  /**
   * No part is empty, so the joined query has no doubled spaces; the title
   * leads when present; and each rating or year criterion appears worded.
   */
  lemma AdvancedPartsContents(a: AdvancedCriteria)
    ensures var parts := AdvancedParts(a);
      && (forall i :: 0 <= i < |parts| ==> parts[i] != "")
      && (TruthyText(a.title) ==> parts[0] == a.title.value)
      && (TruthyText(a.minRating) ==> "at least " + a.minRating.value + " stars" in parts)
      && (TruthyText(a.maxRating) ==> "at most " + a.maxRating.value + " stars" in parts)
      && (TruthyText(a.afterYear) ==> "after " + a.afterYear.value in parts)
      && (TruthyText(a.beforeYear) ==> "before " + a.beforeYear.value in parts)
  {
  }

  /**
   * `queryParts.join(' ')`: empty exactly when no criterion is given, and a
   * single part is sent as it is.
   */
  function AdvancedQuery(a: AdvancedCriteria): (q: string)
    ensures q == "" <==> AdvancedParts(a) == []
    ensures |AdvancedParts(a)| == 1 ==> q == AdvancedParts(a)[0]
  {
    AdvancedPartsContents(a);
    Join(AdvancedParts(a), " ")
  }

  /**
   * An advanced search with no criteria sends the empty query, which the
   * engine answers with the top-rated listing; a title alone is sent as is.
   */
  lemma AdvancedQueryEdges(a: AdvancedCriteria)
    ensures AdvancedParts(a) == [] ==> AdvancedQuery(a) == "" && EngineRoute(Some(AdvancedQuery(a))).TopRatedListing?
    ensures TruthyText(a.title) && !TruthyText(a.description) && !TruthyText(a.cast) && !TruthyText(a.minRating)
      && !TruthyText(a.maxRating) && !TruthyText(a.afterYear) && !TruthyText(a.beforeYear)
      ==> AdvancedQuery(a) == a.title.value
  {
  }

  // ---------------------------------------------------------------------
  // Messages
  // ---------------------------------------------------------------------

  /** Where `c` first occurs in `s`, if anywhere. */
  function FirstIndex(s: string, c: char): (r: Option<nat>)
    ensures r.None? <==> c !in s
    ensures r.Some? ==> r.value < |s| && s[r.value] == c && c !in s[..r.value]
    decreases |s|
  {
    if s == [] then None
    else if s[0] == c then Some(0)
    else
      var rest := FirstIndex(s[1..], c);
      assert s == [s[0]] + s[1..];
      if rest.None? then None
      else
        assert s[..rest.value + 1] == [s[0]] + s[1..][..rest.value];
        Some(rest.value + 1)
  }

  /** `s.replace(from, to)` for one character: only the first occurrence is replaced. */
  function ReplaceFirst(s: string, from: char, to: char): (r: string)
    ensures |r| == |s|
    ensures from !in s ==> r == s
    ensures var k := FirstIndex(s, from); k.Some? ==> r == s[..k.value] + [to] + s[k.value + 1..]
  {
    match FirstIndex(s, from)
    case None => s
    case Some(k) => s[..k] + [to] + s[k + 1..]
  }

  /** The words for a content type in a message: lower case, the first `_` as a space, plural. */
  function ContentWords(kind: Option<string>): string {
    if TruthyText(kind) then ReplaceFirst(ToLower(kind.value), '_', ' ') + "s" else "movies and TV shows"
  }

  /** The count a message of the form `Found <n> ...` reports, read back from its text. */
  function MessageCount(m: string): Option<int> {
    if |m| >= 6 && m[..6] == "Found " then
      match JsonText.ReadInt(m[6..])
      case Some((n, _)) => Some(n)
      case None => None
    else None
  }

  /** A count followed by a non-digit is read back from the message. */
  lemma MessageCountOf(total: nat, rest: string)
    requires |rest| == 0 || !IsDigit(rest[0])
    ensures MessageCount("Found " + NatToString(total) + rest) == Some(total)
  {
    var m := "Found " + NatToString(total) + rest;
    assert m[..6] == "Found ";
    assert m[6..] == IntToString(total) + rest;
    JsonText.ReadIntRoundTrip(total, rest);
  }

  /** The same, for a message built from two pieces after the count. */
  lemma MessageCountOfTwo(total: nat, a: string, b: string)
    requires |a| > 0 && !IsDigit(a[0])
    ensures MessageCount("Found " + NatToString(total) + a + b) == Some(total)
  {
    assert "Found " + NatToString(total) + a + b == "Found " + NatToString(total) + (a + b);
    MessageCountOf(total, a + b);
  }

  /**
   * `buildTopRatedMessage`: the count reads back from the message, and the
   * two content types and the absent type have their wording.
   */
  function BuildTopRatedMessage(total: nat, kind: Option<string>): (m: string)
    ensures MessageCount(m) == Some(total)
    ensures kind == Some("MOVIE") ==> m == "Found " + NatToString(total) + " top " + "movies"
    ensures kind == Some("TV_SHOW") ==> m == "Found " + NatToString(total) + " top " + "tv shows"
    ensures !TruthyText(kind) ==> m == "Found " + NatToString(total) + " top " + "movies and TV shows"
  {
    MessageCountOfTwo(total, " top ", ContentWords(kind));
    ContentWordsOfTypes();
    "Found " + NatToString(total) + " top " + ContentWords(kind)
  }

  /** The two enum values read `movies` and `tv shows`; no type reads `movies and TV shows`. */
  lemma ContentWordsOfTypes()
    ensures ContentWords(Some("MOVIE")) == "movies"
    ensures ContentWords(Some("TV_SHOW")) == "tv shows"
    ensures ContentWords(None) == "movies and TV shows" && ContentWords(Some("")) == "movies and TV shows"
  {
    MovieWords();
    TvShowWords();
  }

  lemma MovieWords()
    ensures ContentWords(Some("MOVIE")) == "movies"
  {
    assert ToLower("MOVIE") == "movie";
    assert '_' !in "movie";
  }

  lemma TvShowWords()
    ensures ContentWords(Some("TV_SHOW")) == "tv shows"
  {
    var t := ToLower("TV_SHOW");
    assert t == "tv_show";
    assert t[0] != '_' && t[1] != '_' && t[2] == '_';
    assert t[..2] == "tv";
    assert FirstIndex(t, '_') == Some(2);
    assert t[3..] == "show";
    assert "tv" + [' '] + "show" + "s" == "tv shows";
  }

  /**
   * `buildSearchResponse`'s message: the count reads back from it; with a
   * query it ends with the query in double quotes; otherwise it ends with
   * the type, or with every kind.
   */
  function SearchMessage(total: nat, query: Option<string>, kind: Option<string>): (m: string)
    ensures MessageCount(m) == Some(total)
    ensures TruthyText(query) ==> |m| >= |query.value| + 2 && m[|m| - |query.value| - 2..] == "\"" + query.value + "\""
    ensures !TruthyText(query) && TruthyText(kind) ==> |m| > |kind.value| && m[|m| - |kind.value| - 1..] == " " + kind.value
    ensures !TruthyText(query) && !TruthyText(kind) ==> m == "Found " + NatToString(total) + " movies and TV shows"
  {
    var tail :=
      if TruthyText(query) then " results for " + ("\"" + query.value + "\"")
      else if TruthyText(kind) then " " + kind.value
      else " movies and TV shows";
    MessageCountOf(total, tail);
    EndsWith("Found " + NatToString(total), tail);
    if TruthyText(query) then
      EndsWithLast("Found " + NatToString(total), " results for ", "\"" + query.value + "\"");
      "Found " + NatToString(total) + tail
    else
      "Found " + NatToString(total) + tail
  }

  /** The tail of a concatenation is its second part. */
  lemma EndsWith(a: string, b: string)
    ensures (a + b)[|a + b| - |b|..] == b
  {
  }

  lemma EndsWithLast(a: string, b: string, c: string)
    ensures (a + (b + c))[|a + (b + c)| - |c|..] == c
  {
    assert a + (b + c) == (a + b) + c;
    EndsWith(a + b, c);
  }

  /** Two search messages for queries are equal only for the same count and the same query. */
  lemma SearchMessageReadsBack(t1: nat, q1: string, k1: Option<string>, t2: nat, q2: string, k2: Option<string>)
    requires q1 != "" && q2 != ""
    requires SearchMessage(t1, Some(q1), k1) == SearchMessage(t2, Some(q2), k2)
    ensures t1 == t2 && q1 == q2
  {
    assert t1 == t2;
    var pre := "Found " + NatToString(t1) + " results for ";
    var x := "\"" + q1 + "\"";
    var y := "\"" + q2 + "\"";
    assert SearchMessage(t1, Some(q1), k1) == pre + x;
    assert SearchMessage(t2, Some(q2), k2) == pre + y;
    CancelPrefix(pre, x, y);
    Unquote(q1);
    Unquote(q2);
  }

  lemma CancelPrefix(pre: string, x: string, y: string)
    requires pre + x == pre + y
    ensures x == y
  {
    assert x == (pre + x)[|pre|..];
    assert y == (pre + y)[|pre|..];
  }

  lemma Unquote(q: string)
    ensures ("\"" + q + "\"")[1..|q| + 1] == q
  {
  }
}
