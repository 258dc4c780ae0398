/**
 * The search-engine query builder (`OpenSearchQueryBuilder`): from the
 * parsed search criteria and an optional content type to the boolean
 * query and sort order the engine receives.
 *
 * A query is kept as its ordered list of `must` clauses, or as the
 * `must_not match_all` query that matches nothing. The current year,
 * which the builder reads from the system clock, is a parameter. A small
 * semantics says which documents a query admits; the fuzzy text and cast
 * matches are left to an oracle.
 */
module QueryBuilder {
  import opened Wrappers
  import opened Text
  import opened JsNumber

  /**
   * `SearchCriteria`. Ratings are checked against `undefined`, so 0 is a
   * bound; years are checked for truthiness, so 0 is no bound.
   */
  datatype SearchCriteria = SearchCriteria(
    textQuery: Option<string>, minRating: Option<real>, maxRating: Option<real>,
    afterYear: Option<int>, beforeYear: Option<int>,
    newerThanYears: Option<int>, olderThanYears: Option<int>,
    castNames: Option<seq<string>>)

  /** The criteria with every field absent. */
  function NoCriteria(): SearchCriteria {
    SearchCriteria(None, None, None, None, None, None, None, None)
  }

  /** A numeric criterion that `if (x)` lets through: present and not 0. */
  predicate TruthyInt(x: Option<int>) {
    x.Some? && x.value != 0
  }

  /**
   * One `must` clause. A date bound is the first of January of `year`,
   * written `${year}-01-01`.
   */
  datatype Clause =
    | MatchAll
    | TypeTerm(kind: string)            // { term: { type } } in a search
    | TypeMatch(kind: string)           // { match: { type } } in the top-rated listing
    | MinRating(atLeast: real)          // range averageRating gte
    | MaxRating(atMost: real)           // range averageRating lte
    | ReleasedFrom(year: int)           // range releaseDate gte year-01-01
    | ReleasedBefore(year: int)         // range releaseDate lt year-01-01
    | TextMatch(query: string)          // the five-way should clause over SearchText(query)
    | CastMatch(name: string)           // match searchText, boost 2

  /** The `bool` part of a query. */
  datatype BoolQuery = Must(clauses: seq<Clause>) | MustNotMatchAll

  /** The fields results are sorted by, each in descending order. */
  datatype SortKey = Score | AverageRating | RatingCount

  datatype Query = Query(query: BoolQuery, sort: seq<SortKey>)

  /** The text form of a date bound. */
  function BoundText(year: int): string {
    IntToString(year) + "-01-01"
  }

  /** The sub-queries of the text clause: field, kind and boost. */
  datatype SubQuery = SubQuery(field: string, kind: string, value: string, boost: int)

  /** The text the engine is sent for a query: lower-cased, then trimmed. */
  function SearchText(query: string): string {
    Trim(ToLower(query))
  }

  /** The `should` list of the text clause for `query`, at least one of which must match. */
  function TextSubQueries(query: string): seq<SubQuery> {
    var text := SearchText(query);
    [ SubQuery("title", "match", text, 10),
      SubQuery("title.keyword", "wildcard", "*" + text + "*", 8),
      SubQuery("description", "match", text, 5),
      SubQuery("searchText", "match", text, 6),
      SubQuery("title", "fuzzy", text, 3) ]
  }

  // ---------------------------------------------------------------------
  // Clause builders
  // ---------------------------------------------------------------------

  /** 1 for a criterion that adds a clause, 0 otherwise. */
  function Flag(b: bool): nat {
    if b then 1 else 0
  }

  function TypeClauses(kind: Option<string>): seq<Clause> {
    if TruthyText(kind) then [TypeTerm(kind.value)] else []
  }

  /** `addRatingFilters`: a minimum, then a maximum, each when defined. */
  function RatingClauses(c: SearchCriteria): seq<Clause> {
    (if c.minRating.Some? then [MinRating(c.minRating.value)] else [])
    + (if c.maxRating.Some? then [MaxRating(c.maxRating.value)] else [])
  }

  /**
   * `addDateFilters`: after, before (as the year after, exclusive), older
   * than and newer than, each when truthy.
   */
  function DateClauses(c: SearchCriteria, currentYear: int): (r: seq<Clause>)
    ensures |r| == Flag(TruthyInt(c.afterYear)) + Flag(TruthyInt(c.beforeYear))
      + Flag(TruthyInt(c.olderThanYears)) + Flag(TruthyInt(c.newerThanYears))
    ensures forall i :: 0 <= i < |r| ==> r[i].ReleasedFrom? || r[i].ReleasedBefore?
    ensures TruthyInt(c.afterYear) ==> r[0] == ReleasedFrom(c.afterYear.value)
    ensures TruthyInt(c.beforeYear) ==> ReleasedBefore(c.beforeYear.value + 1) in r
  {
    (if TruthyInt(c.afterYear) then [ReleasedFrom(c.afterYear.value)] else [])
    + (if TruthyInt(c.beforeYear) then [ReleasedBefore(c.beforeYear.value + 1)] else [])
    + (if TruthyInt(c.olderThanYears) then [ReleasedBefore(currentYear - c.olderThanYears.value)] else [])
    + (if TruthyInt(c.newerThanYears) then [ReleasedFrom(currentYear - c.newerThanYears.value)] else [])
  }

  /**
   * `addTextQuery`: nothing for a missing query or one that trims to the
   * empty string (a blank one, by `Text.TrimEmptyIffBlank`), else one text
   * clause.
   */
  function TextClauses(c: SearchCriteria): seq<Clause> {
    if c.textQuery.None? || IsBlank(c.textQuery.value) then [] else [TextMatch(c.textQuery.value)]
  }

  /** `addCastFilters`: one clause per name, in order. */
  function CastClauses(c: SearchCriteria): (r: seq<Clause>)
    ensures c.castNames.None? ==> r == []
    ensures c.castNames.Some? ==> |r| == |c.castNames.value| && forall i :: 0 <= i < |r| ==> r[i] == CastMatch(c.castNames.value[i])
  {
    if c.castNames.None? then []
    else seq(|c.castNames.value|, i requires 0 <= i < |c.castNames.value| => CastMatch(c.castNames.value[i]))
  }

  /**
   * `buildMustClauses`: one clause per criterion given (one per cast name),
   * the type term first when a type is given and nowhere otherwise.
   */
  function MustClauses(c: SearchCriteria, kind: Option<string>, currentYear: int): (r: seq<Clause>)
    ensures |r| == Flag(TruthyText(kind)) + Flag(c.minRating.Some?) + Flag(c.maxRating.Some?)
      + |DateClauses(c, currentYear)| + Flag(c.textQuery.Some? && !IsBlank(c.textQuery.value))
      + (if c.castNames.Some? then |c.castNames.value| else 0)
    ensures TruthyText(kind) ==> r[0] == TypeTerm(kind.value)
    ensures forall i :: 0 <= i < |r| && r[i].TypeTerm? ==> TruthyText(kind) && r[i] == TypeTerm(kind.value)
  {
    TypeClauses(kind) + RatingClauses(c) + DateClauses(c, currentYear) + TextClauses(c) + CastClauses(c)
  }

  function SearchSort(): seq<SortKey> {
    [Score, AverageRating, RatingCount]
  }

  function TopRatedSort(): seq<SortKey> {
    [AverageRating, RatingCount]
  }

  /** `buildSearchQuery`: the clauses under `must`, or `must_not match_all` when there are none. */
  function BuildSearchQuery(c: SearchCriteria, kind: Option<string>, currentYear: int): (q: Query)
    ensures q.sort == SearchSort()
    ensures q.query.MustNotMatchAll? <==> MustClauses(c, kind, currentYear) == []
    ensures q.query.Must? ==> q.query.clauses == MustClauses(c, kind, currentYear)
  {
    var clauses := MustClauses(c, kind, currentYear);
    Query(if |clauses| > 0 then Must(clauses) else MustNotMatchAll, SearchSort())
  }

  /** `buildTopRatedQuery`: a type match when a type is given, `match_all` otherwise. */
  function BuildTopRatedQuery(kind: Option<string>): (q: Query)
    ensures q.sort == TopRatedSort()
    ensures q.query == Must(if TruthyText(kind) then [TypeMatch(kind.value)] else [MatchAll])
  {
    var clauses := if TruthyText(kind) then [TypeMatch(kind.value)] else [];
    Query(Must(if |clauses| > 0 then clauses else [MatchAll]), TopRatedSort())
  }

  // ---------------------------------------------------------------------
  // Which documents a query admits
  // ---------------------------------------------------------------------

  /** A release date. */
  datatype Date = Date(year: int, month: int, day: int)

  /** An indexed document, as far as the filter clauses look at it. */
  datatype Doc = Doc(kind: string, averageRating: real, released: Date)

  /** The date falls before the first of January of `year`. */
  predicate BeforeNewYear(d: Date, year: int) {
    d.year < year || (d.year == year && (d.month < 1 || (d.month == 1 && d.day < 1)))
  }

  predicate ValidDate(d: Date) {
    1 <= d.month <= 12 && 1 <= d.day <= 31
  }

  /** What one clause admits; text and cast matches are fuzzy and decided by `fuzzy`. */
  predicate Admits(d: Doc, c: Clause, fuzzy: Clause -> bool) {
    match c
    case MatchAll => true
    case TypeTerm(k) => d.kind == k
    case TypeMatch(k) => d.kind == k
    case MinRating(r) => d.averageRating >= r
    case MaxRating(r) => d.averageRating <= r
    case ReleasedFrom(y) => !BeforeNewYear(d.released, y)
    case ReleasedBefore(y) => BeforeNewYear(d.released, y)
    case TextMatch(_) => fuzzy(c)
    case CastMatch(_) => fuzzy(c)
  }

  /** A document matches `must` when every clause admits it; `must_not match_all` matches nothing. */
  predicate Matches(d: Doc, q: BoolQuery, fuzzy: Clause -> bool) {
    match q
    case MustNotMatchAll => false
    case Must(cs) => forall i :: 0 <= i < |cs| ==> Admits(d, cs[i], fuzzy)
  }

  // ---------------------------------------------------------------------
  // Properties
  // ---------------------------------------------------------------------

  /** Empty criteria without a type give a query that matches no document. */
  lemma EmptySearchMatchesNothing(d: Doc, currentYear: int, fuzzy: Clause -> bool)
    ensures BuildSearchQuery(NoCriteria(), None, currentYear).query == MustNotMatchAll
    ensures !Matches(d, BuildSearchQuery(NoCriteria(), None, currentYear).query, fuzzy)
  {
    assert MustClauses(NoCriteria(), None, currentYear) == [];
  }

  /** The untyped top-rated query matches every document; the typed one exactly the documents of that type. */
  lemma TopRatedMatches(d: Doc, kind: Option<string>, fuzzy: Clause -> bool)
    ensures Matches(d, BuildTopRatedQuery(kind).query, fuzzy) <==> !TruthyText(kind) || d.kind == kind.value
  {
    var cs := BuildTopRatedQuery(kind).query.clauses;
    if TruthyText(kind) {
      assert cs == [TypeMatch(kind.value)];
      assert Matches(d, Must(cs), fuzzy) <==> Admits(d, cs[0], fuzzy);
    } else {
      assert cs == [MatchAll];
      assert Admits(d, cs[0], fuzzy);
    }
  }

  /** The position a clause kind takes in `buildMustClauses`. */
  function Rank(c: Clause): nat {
    match c
    case MatchAll => 0
    case TypeTerm(_) => 0
    case TypeMatch(_) => 0
    case MinRating(_) => 1
    case MaxRating(_) => 2
    case ReleasedFrom(_) => 3
    case ReleasedBefore(_) => 3
    case TextMatch(_) => 4
    case CastMatch(_) => 5
  }

  predicate RanksWithin(cs: seq<Clause>, lo: nat, hi: nat) {
    forall i :: 0 <= i < |cs| ==> lo <= Rank(cs[i]) <= hi
  }

  predicate RankOrdered(cs: seq<Clause>) {
    forall i, j :: 0 <= i < j < |cs| ==> Rank(cs[i]) <= Rank(cs[j])
  }

  lemma OrderedAppend(a: seq<Clause>, b: seq<Clause>, lo: nat, mid: nat, hi: nat)
    requires RankOrdered(a) && RankOrdered(b) && lo <= mid <= hi
    requires RanksWithin(a, lo, mid) && RanksWithin(b, mid, hi)
    ensures RankOrdered(a + b) && RanksWithin(a + b, lo, hi)
  {
    forall i | 0 <= i < |a + b| ensures lo <= Rank((a + b)[i]) <= hi {
      if i >= |a| {
        assert (a + b)[i] == b[i - |a|];
      } else {
        assert (a + b)[i] == a[i];
      }
    }
    forall i, j | 0 <= i < j < |a + b| ensures Rank((a + b)[i]) <= Rank((a + b)[j]) {
      if j < |a| {
      } else if i >= |a| {
        assert (a + b)[i] == b[i - |a|] && (a + b)[j] == b[j - |a|];
      } else {
        assert Rank((a + b)[i]) <= mid <= Rank((a + b)[j]);
      }
    }
  }

  lemma DateRanks(c: SearchCriteria, currentYear: int)
    ensures RankOrdered(DateClauses(c, currentYear)) && RanksWithin(DateClauses(c, currentYear), 3, 3)
  {
    var d := DateClauses(c, currentYear);
    assert forall i :: 0 <= i < |d| ==> d[i].ReleasedFrom? || d[i].ReleasedBefore?;
  }

  lemma RatingRanks(c: SearchCriteria)
    ensures RankOrdered(RatingClauses(c)) && RanksWithin(RatingClauses(c), 1, 2)
  {
    var r := RatingClauses(c);
    assert |r| <= 2;
    assert forall i :: 0 <= i < |r| ==> r[i].MinRating? || r[i].MaxRating?;
    assert |r| == 2 ==> r[0].MinRating? && r[1].MaxRating?;
  }

  lemma TypeRanks(kind: Option<string>)
    ensures RankOrdered(TypeClauses(kind)) && RanksWithin(TypeClauses(kind), 0, 0)
  {
  }

  lemma TextRanks(c: SearchCriteria)
    ensures RankOrdered(TextClauses(c)) && RanksWithin(TextClauses(c), 4, 4)
  {
    var x := TextClauses(c);
    if x != [] {
      assert |x| == 1 && x[0].TextMatch?;
    }
  }

  lemma CastRanks(c: SearchCriteria)
    ensures RankOrdered(CastClauses(c)) && RanksWithin(CastClauses(c), 5, 5)
  {
    var k := CastClauses(c);
    assert forall i :: 0 <= i < |k| ==> k[i].CastMatch?;
  }

  /** Each builder yields clauses of its own rank. */
  lemma PartRanks(c: SearchCriteria, kind: Option<string>, currentYear: int)
    ensures RankOrdered(TypeClauses(kind)) && RanksWithin(TypeClauses(kind), 0, 0)
    ensures RankOrdered(RatingClauses(c)) && RanksWithin(RatingClauses(c), 1, 2)
    ensures RankOrdered(DateClauses(c, currentYear)) && RanksWithin(DateClauses(c, currentYear), 3, 3)
    ensures RankOrdered(TextClauses(c)) && RanksWithin(TextClauses(c), 4, 4)
    ensures RankOrdered(CastClauses(c)) && RanksWithin(CastClauses(c), 5, 5)
  {
    TypeRanks(kind);
    RatingRanks(c);
    DateRanks(c, currentYear);
    TextRanks(c);
    CastRanks(c);
  }

  /** A clause whose rank lies outside a list's ranks is not in the list. */
  lemma NotInByRank(cs: seq<Clause>, lo: nat, hi: nat, x: Clause)
    requires RanksWithin(cs, lo, hi) && (Rank(x) < lo || Rank(x) > hi)
    ensures x !in cs
  {
  }

  /**
   * The clauses come in the fixed order type, minimum rating, maximum
   * rating, dates, text, cast.
   */
  lemma {:induction false} ClauseOrder(c: SearchCriteria, kind: Option<string>, currentYear: int)
    ensures RankOrdered(MustClauses(c, kind, currentYear))
  {
    var t := TypeClauses(kind);
    var r := RatingClauses(c);
    var d := DateClauses(c, currentYear);
    var x := TextClauses(c);
    var k := CastClauses(c);
    PartRanks(c, kind, currentYear);
    OrderedAppend(t, r, 0, 1, 2);
    OrderedAppend(t + r, d, 0, 3, 3);
    OrderedAppend(t + r + d, x, 0, 4, 4);
    OrderedAppend(t + r + d + x, k, 0, 5, 5);
  }

  /**
   * A minimum-rating clause for `x` is present iff the criteria's minimum
   * is defined as `x`, 0 included; likewise for the maximum.
   */
  lemma RatingClauseIffDefined(c: SearchCriteria, kind: Option<string>, currentYear: int, x: real)
    ensures MinRating(x) in MustClauses(c, kind, currentYear) <==> c.minRating == Some(x)
    ensures MaxRating(x) in MustClauses(c, kind, currentYear) <==> c.maxRating == Some(x)
  {
    var t := TypeClauses(kind);
    var r := RatingClauses(c);
    var d := DateClauses(c, currentYear);
    var tx := TextClauses(c);
    var k := CastClauses(c);
    PartRanks(c, kind, currentYear);
    NotInByRank(t, 0, 0, MinRating(x));
    NotInByRank(t, 0, 0, MaxRating(x));
    NotInByRank(d, 3, 3, MinRating(x));
    NotInByRank(d, 3, 3, MaxRating(x));
    NotInByRank(tx, 4, 4, MinRating(x));
    NotInByRank(tx, 4, 4, MaxRating(x));
    NotInByRank(k, 5, 5, MinRating(x));
    NotInByRank(k, 5, 5, MaxRating(x));
    RatingsIn(c, x);
    InFive(t, r, d, tx, k, MinRating(x));
    InFive(t, r, d, tx, k, MaxRating(x));
  }

  lemma RatingsIn(c: SearchCriteria, x: real)
    ensures MinRating(x) in RatingClauses(c) <==> c.minRating == Some(x)
    ensures MaxRating(x) in RatingClauses(c) <==> c.maxRating == Some(x)
  {
  }

  lemma InFive(t: seq<Clause>, r: seq<Clause>, d: seq<Clause>, tx: seq<Clause>, k: seq<Clause>, x: Clause)
    requires x !in t && x !in d && x !in tx && x !in k
    ensures x in t + r + d + tx + k <==> x in r
  {
  }

  /** The cast names a clause list searches for, in order. */
  function CastsOf(cs: seq<Clause>): seq<string>
    decreases |cs|
  {
    if cs == [] then []
    else (if cs[0].CastMatch? then [cs[0].name] else []) + CastsOf(cs[1..])
  }

  lemma {:induction false} CastsOfAppend(a: seq<Clause>, b: seq<Clause>)
    ensures CastsOf(a + b) == CastsOf(a) + CastsOf(b)
    decreases |a|
  {
    if a == [] {
      assert a + b == b;
    } else {
      var ab := a + b;
      assert ab[0] == a[0];
      assert ab[1..] == a[1..] + b;
      CastsOfAppend(a[1..], b);
      assert CastsOf(ab) == (if ab[0].CastMatch? then [ab[0].name] else []) + CastsOf(ab[1..]);
    }
  }

  lemma {:induction false} CastsOfNone(cs: seq<Clause>)
    requires RanksWithin(cs, 0, 4)
    ensures CastsOf(cs) == []
    decreases |cs|
  {
    if cs != [] {
      CastsOfNone(cs[1..]);
    }
  }

  lemma {:induction false} CastsOfCasts(names: seq<string>, cs: seq<Clause>)
    requires |cs| == |names| && forall i :: 0 <= i < |cs| ==> cs[i] == CastMatch(names[i])
    ensures CastsOf(cs) == names
    decreases |cs|
  {
    if cs != [] {
      CastsOfCasts(names[1..], cs[1..]);
      assert names == [names[0]] + names[1..];
    }
  }

  /** Exactly one cast clause per name, in the order of the names; none without names. */
  lemma CastClausePerName(c: SearchCriteria, kind: Option<string>, currentYear: int)
    ensures CastsOf(MustClauses(c, kind, currentYear)) == if c.castNames.Some? then c.castNames.value else []
  {
    var front := TypeClauses(kind) + RatingClauses(c) + DateClauses(c, currentYear) + TextClauses(c);
    PartRanks(c, kind, currentYear);
    OrderedAppend(TypeClauses(kind), RatingClauses(c), 0, 1, 2);
    OrderedAppend(TypeClauses(kind) + RatingClauses(c), DateClauses(c, currentYear), 0, 3, 3);
    OrderedAppend(TypeClauses(kind) + RatingClauses(c) + DateClauses(c, currentYear), TextClauses(c), 0, 4, 4);
    CastsOfAppend(front, CastClauses(c));
    CastsOfNone(front);
    if c.castNames.Some? {
      CastsOfCasts(c.castNames.value, CastClauses(c));
    }
  }

  /** The text clauses of a clause list. */
  function TextsOf(cs: seq<Clause>): seq<string> {
    if cs == [] then []
    else (if cs[0].TextMatch? then [cs[0].query] else []) + TextsOf(cs[1..])
  }

  lemma {:induction false} TextsOfAppend(a: seq<Clause>, b: seq<Clause>)
    ensures TextsOf(a + b) == TextsOf(a) + TextsOf(b)
    decreases |a|
  {
    if a == [] {
      assert a + b == b;
    } else {
      var ab := a + b;
      assert ab[0] == a[0];
      assert ab[1..] == a[1..] + b;
      TextsOfAppend(a[1..], b);
      assert TextsOf(ab) == (if ab[0].TextMatch? then [ab[0].query] else []) + TextsOf(ab[1..]);
    }
  }

  lemma {:induction false} TextsOfNone(cs: seq<Clause>, lo: nat, hi: nat)
    requires RanksWithin(cs, lo, hi) && (hi < 4 || lo > 4)
    ensures TextsOf(cs) == []
    decreases |cs|
  {
    if cs != [] {
      TextsOfNone(cs[1..], lo, hi);
    }
  }

  /**
   * A missing or whitespace-only text query adds no text clause; any other
   * adds exactly one, for that query.
   */
  lemma TextClauseIffNotBlank(c: SearchCriteria, kind: Option<string>, currentYear: int)
    ensures var texts := TextsOf(MustClauses(c, kind, currentYear));
      && (c.textQuery.None? || IsBlank(c.textQuery.value) ==> texts == [])
      && (c.textQuery.Some? && !IsBlank(c.textQuery.value) ==> texts == [c.textQuery.value])
  {
    var front := TypeClauses(kind) + RatingClauses(c) + DateClauses(c, currentYear);
    FrontBelowText(c, kind, currentYear);
    CastRanks(c);
    TextsOfMiddle(front, TextClauses(c), CastClauses(c));
    TextsOfTextClauses(c);
  }

  lemma FrontBelowText(c: SearchCriteria, kind: Option<string>, currentYear: int)
    ensures RanksWithin(TypeClauses(kind) + RatingClauses(c) + DateClauses(c, currentYear), 0, 3)
  {
    PartRanks(c, kind, currentYear);
    OrderedAppend(TypeClauses(kind), RatingClauses(c), 0, 1, 2);
    OrderedAppend(TypeClauses(kind) + RatingClauses(c), DateClauses(c, currentYear), 0, 3, 3);
  }

  lemma TextsOfMiddle(front: seq<Clause>, x: seq<Clause>, k: seq<Clause>)
    requires RanksWithin(front, 0, 3) && RanksWithin(k, 5, 5)
    ensures TextsOf(front + x + k) == TextsOf(x)
  {
    TextsOfAppend(front + x, k);
    TextsOfAppend(front, x);
    TextsOfNone(front, 0, 3);
    TextsOfNone(k, 5, 5);
  }

  lemma TextsOfTextClauses(c: SearchCriteria)
    ensures TextsOf(TextClauses(c)) == if c.textQuery.None? || IsBlank(c.textQuery.value) then [] else [c.textQuery.value]
  {
    var x := TextClauses(c);
    if x != [] {
      assert TextsOf(x) == [x[0].query] + TextsOf(x[1..]);
    }
  }

  /** Lower-casing keeps every character's whitespace class. */
  lemma LowerKeepsBlank(s: string)
    ensures IsBlank(ToLower(s)) <==> IsBlank(s)
  {
    var l := ToLower(s);
    assert forall i :: 0 <= i < |s| ==> (IsWhitespace(l[i]) <==> IsWhitespace(s[i]));
  }

  /**
   * The text a text clause sends is never empty, has no whitespace at
   * either end and no upper-case ASCII letter.
   */
  lemma SearchTextOfClause(c: SearchCriteria, kind: Option<string>, currentYear: int, i: int)
    requires 0 <= i < |MustClauses(c, kind, currentYear)| && MustClauses(c, kind, currentYear)[i].TextMatch?
    ensures var t := SearchText(MustClauses(c, kind, currentYear)[i].query);
      && t != ""
      && !IsWhitespace(t[0]) && !IsWhitespace(t[|t| - 1])
      && NoUpper(t)
  {
    var cs := MustClauses(c, kind, currentYear);
    TextClauseIffNotBlank(c, kind, currentYear);
    TextMatchInTexts(cs, i);
    SearchTextShape(c.textQuery.value);
  }

  /** No upper-case ASCII letter occurs in `s`. */
  predicate NoUpper(s: string) {
    forall j :: 0 <= j < |s| ==> !('A' <= s[j] <= 'Z')
  }

  /** The search text of a query that is not blank. */
  lemma SearchTextShape(q: string)
    requires !IsBlank(q)
    ensures var t := SearchText(q);
      && t != ""
      && !IsWhitespace(t[0]) && !IsWhitespace(t[|t| - 1])
      && NoUpper(t)
  {
    var l := ToLower(q);
    LowerKeepsBlank(q);
    assert NoUpper(l);
    TrimKeepsNoUpper(l);
  }

  /** Trimming a text that is not blank and has no upper-case letter leaves one of the same kind. */
  lemma TrimKeepsNoUpper(l: string)
    requires !IsBlank(l) && NoUpper(l)
    ensures Trim(l) != "" && NoUpper(Trim(l))
  {
    TrimEmptyIffBlank(l);
    NoUpperSlice(l, |l| - |TrimStart(l)|, |l|);
    var front := TrimStart(l);
    NoUpperSlice(front, 0, |TrimEnd(front)|);
  }

  lemma NoUpperSlice(s: string, i: int, j: int)
    requires 0 <= i <= j <= |s| && NoUpper(s)
    ensures NoUpper(s[i..j])
  {
    forall k | 0 <= k < j - i ensures !('A' <= s[i..j][k] <= 'Z') {
      assert s[i..j][k] == s[i + k];
    }
  }

  /** A text clause's query is among the list's texts. */
  lemma {:induction false} TextMatchInTexts(cs: seq<Clause>, i: int)
    requires 0 <= i < |cs| && cs[i].TextMatch?
    ensures cs[i].query in TextsOf(cs)
    decreases |cs|
  {
    if i > 0 {
      TextMatchInTexts(cs[1..], i - 1);
    }
  }

  /**
   * `afterYear = y` and `beforeYear = y` together admit exactly the dates
   * of year `y`: the before-bound is the first of January of `y + 1`.
   */
  lemma SameYearBoundsAdmitThatYear(y: int, d: Doc, currentYear: int, fuzzy: Clause -> bool)
    requires y != 0 && ValidDate(d.released)
    ensures var c := NoCriteria().(afterYear := Some(y), beforeYear := Some(y));
      && MustClauses(c, None, currentYear) == [ReleasedFrom(y), ReleasedBefore(y + 1)]
      && (Matches(d, BuildSearchQuery(c, None, currentYear).query, fuzzy) <==> d.released.year == y)
  {
    var c := NoCriteria().(afterYear := Some(y), beforeYear := Some(y));
    assert TextClauses(c) == [] && CastClauses(c) == [] && RatingClauses(c) == [];
    assert DateClauses(c, currentYear) == [ReleasedFrom(y), ReleasedBefore(y + 1)];
    var cs := [ReleasedFrom(y), ReleasedBefore(y + 1)];
    assert MustClauses(c, None, currentYear) == cs;
    assert BuildSearchQuery(c, None, currentYear).query == Must(cs);
    assert Matches(d, Must(cs), fuzzy) <==> Admits(d, cs[0], fuzzy) && Admits(d, cs[1], fuzzy);
  }

  /** `olderThanYears = n` admits releases before the year `currentYear - n`; `newerThanYears = n` from it on. */
  lemma RelativeYearBounds(n: int, currentYear: int)
    requires n != 0
    ensures MustClauses(NoCriteria().(olderThanYears := Some(n)), None, currentYear) == [ReleasedBefore(currentYear - n)]
    ensures MustClauses(NoCriteria().(newerThanYears := Some(n)), None, currentYear) == [ReleasedFrom(currentYear - n)]
  {
    var older := NoCriteria().(olderThanYears := Some(n));
    var newer := NoCriteria().(newerThanYears := Some(n));
    assert TextClauses(older) == [] && CastClauses(older) == [];
    assert TextClauses(newer) == [] && CastClauses(newer) == [];
  }

  /** A year of 0 is no bound at all, while a rating of 0 is a bound. */
  lemma ZeroYearIgnoredZeroRatingKept(currentYear: int)
    ensures MustClauses(NoCriteria().(afterYear := Some(0)), None, currentYear) == []
    ensures MustClauses(NoCriteria().(minRating := Some(0.0)), None, currentYear) == [MinRating(0.0)]
  {
    var year := NoCriteria().(afterYear := Some(0));
    var rating := NoCriteria().(minRating := Some(0.0));
    assert TextClauses(year) == [] && CastClauses(year) == [];
    assert TextClauses(rating) == [] && CastClauses(rating) == [];
  }
}
