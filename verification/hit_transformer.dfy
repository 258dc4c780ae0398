/**
 * The search-hit transformer (`MovieTransformerService`): from the
 * `_source` of a search-engine hit to the clean movie the search endpoints
 * return, with the space-separated cast string turned into actor entries.
 */
module HitTransformer {
  import opened Wrappers
  import opened Text
  import opened JsNumber

  /** The indexed document. Numbers that may be missing are `Option<Num>` (None for undefined or null). */
  datatype HitSource = HitSource(
    id: int, title: string, description: string, cast: Option<string>, kind: string,
    releaseDate: string, averageRating: Option<Num>, ratingCount: Option<Num>,
    createdAt: string, updatedAt: string)

  /** One entry of `casts`: the actor's name and the role, always `'Actor'`. */
  datatype CastEntry = CastEntry(actorName: string, role: string)

  /** `CleanMovie`. The release date is kept as the indexed text; `new Date(...)` is not modelled. */
  datatype CleanMovie = CleanMovie(
    id: int, title: string, description: string, coverUrl: Option<string>,
    releaseDate: string, kind: string, avgRating: Num, ratingsCount: Num,
    casts: seq<CastEntry>)

  const ActorRole: string := "Actor"

  /** `x || 0` for a number that may be undefined. */
  function OrZero(x: Option<Num>): (r: Num)
    ensures r.Fin?
    ensures r == Fin(0.0) <==> x.None? || !Truthy(x.value)
    ensures r != Fin(0.0) ==> x == Some(r)
  {
    if x.Some? && Truthy(x.value) then x.value else Fin(0.0)
  }

  /** The tokens whose trimmed form is non-empty, trimmed, each made an actor entry. */
  function Entries(tokens: seq<string>): (r: seq<CastEntry>)
    ensures |r| <= |tokens|
    decreases |tokens|
  {
    if tokens == [] then []
    else if Trim(tokens[0]) == "" then Entries(tokens[1..])
    else [CastEntry(Trim(tokens[0]), ActorRole)] + Entries(tokens[1..])
  }

  /**
   * `transformCast`: a falsy cast string yields no entry; any other yields
   * one entry per non-blank space-separated token, each with a non-empty,
   * trimmed, space-free name and the role `'Actor'`.
   */
  function TransformCast(cast: Option<string>): (r: seq<CastEntry>)
    ensures !TruthyText(cast) ==> r == []
    ensures TruthyText(cast) ==> |r| == CountNonBlank(Split(cast.value, ' '))
    ensures CleanEntries(r)
  {
    if !TruthyText(cast) then []
    else
      EntriesShape(Split(cast.value, ' '));
      Entries(Split(cast.value, ' '))
  }

  /** `transform`: the fields copied, the cover URL left undefined and missing numbers read as 0. */
  function Transform(hit: HitSource): (m: CleanMovie)
    ensures m.coverUrl.None?
    ensures m.id == hit.id && m.title == hit.title && m.description == hit.description
    ensures m.releaseDate == hit.releaseDate && m.kind == hit.kind
    ensures m.avgRating.Fin? && m.ratingsCount.Fin?
    ensures m.avgRating == Fin(0.0) <==> hit.averageRating.None? || !Truthy(hit.averageRating.value)
    ensures m.ratingsCount == Fin(0.0) <==> hit.ratingCount.None? || !Truthy(hit.ratingCount.value)
    ensures m.avgRating != Fin(0.0) ==> hit.averageRating == Some(m.avgRating)
    ensures m.ratingsCount != Fin(0.0) ==> hit.ratingCount == Some(m.ratingsCount)
  {
    CleanMovie(hit.id, hit.title, hit.description, None, hit.releaseDate, hit.kind,
      OrZero(hit.averageRating), OrZero(hit.ratingCount), TransformCast(hit.cast))
  }

  // ---------------------------------------------------------------------
  // Properties
  // ---------------------------------------------------------------------

  /** How many tokens are not blank. */
  function CountNonBlank(tokens: seq<string>): nat
    decreases |tokens|
  {
    if tokens == [] then 0 else (if IsBlank(tokens[0]) then 0 else 1) + CountNonBlank(tokens[1..])
  }

  /** The names of a list of entries. */
  function Names(es: seq<CastEntry>): seq<string> {
    seq(|es|, i requires 0 <= i < |es| => es[i].actorName)
  }

  /** A name as the transformer leaves it: non-empty, without whitespace at either end, and free of spaces. */
  predicate CleanName(s: string) {
    s != "" && !IsWhitespace(s[0]) && !IsWhitespace(s[|s| - 1]) && ' ' !in s
  }

  /** An entry as the transformer makes it: a clean name and the role `'Actor'`. */
  predicate CleanEntry(e: CastEntry) {
    e.role == ActorRole && CleanName(e.actorName)
  }

  /** Every entry is clean. */
  predicate CleanEntries(es: seq<CastEntry>) {
    forall i :: 0 <= i < |es| ==> CleanEntry(es[i])
  }

  lemma CleanEntriesCons(e: CastEntry, es: seq<CastEntry>)
    requires CleanEntry(e) && CleanEntries(es)
    ensures CleanEntries([e] + es)
  {
    var s := [e] + es;
    forall i | 0 <= i < |s| ensures CleanEntry(s[i]) {
      if i == 0 {
        assert s[i] == e;
      } else {
        assert s[i] == es[i - 1];
      }
    }
  }

  /** There is one entry per non-blank token, and every entry is clean. */
  lemma {:induction false} EntriesShape(tokens: seq<string>)
    requires forall k :: 0 <= k < |tokens| ==> ' ' !in tokens[k]
    ensures |Entries(tokens)| == CountNonBlank(tokens)
    ensures CleanEntries(Entries(tokens))
    decreases |tokens|
  {
    if tokens != [] {
      var t := tokens[0];
      var rest := Entries(tokens[1..]);
      EntriesShape(tokens[1..]);
      HeadEntry(t);
      if Trim(t) == "" {
        assert Entries(tokens) == rest;
        assert CountNonBlank(tokens) == CountNonBlank(tokens[1..]);
      } else {
        var head := CastEntry(Trim(t), ActorRole);
        assert CleanEntry(head);
        assert Entries(tokens) == [head] + rest;
        assert CountNonBlank(tokens) == 1 + CountNonBlank(tokens[1..]);
        CleanEntriesCons(head, rest);
      }
    }
  }

  /** The entry a single token contributes, if any. */
  lemma HeadEntry(t: string)
    requires ' ' !in t
    ensures Trim(t) == "" <==> IsBlank(t)
    ensures Trim(t) != "" ==> CleanName(Trim(t))
  {
    TrimEmptyIffBlank(t);
    TrimIdempotent(t);
    TrimInside(t);
  }

  /** Trimming keeps a piece of the original, so it adds no character. */
  lemma TrimInside(s: string)
    ensures forall c :: c in Trim(s) ==> c in s
  {
    var front := TrimStart(s);
    var t := TrimEnd(front);
    assert t == front[..|t|];
    assert front == s[|s| - |front|..];
    forall c | c in t ensures c in s {
      var j :| 0 <= j < |t| && t[j] == c;
      assert front[j] == c;
      assert s[|s| - |front| + j] == c;
    }
  }

  /** A word without whitespace at either end trims to itself. */
  lemma TrimOfTrimmed(s: string)
    requires s != "" && !IsWhitespace(s[0]) && !IsWhitespace(s[|s| - 1])
    ensures Trim(s) == s
  {
    assert TrimStart(s) == s;
    assert TrimEnd(s) == s;
  }

  /** A word: non-empty and without whitespace. */
  predicate IsWord(s: string) {
    s != "" && forall i :: 0 <= i < |s| ==> !IsWhitespace(s[i])
  }

  /** A word is its own trimmed form. */
  lemma WordTrims(w: string)
    requires IsWord(w)
    ensures Trim(w) == w
  {
    assert !IsWhitespace(w[0]) && !IsWhitespace(w[|w| - 1]);
    TrimOfTrimmed(w);
  }

  lemma NamesCons(e: CastEntry, es: seq<CastEntry>)
    ensures Names([e] + es) == [e.actorName] + Names(es)
  {
  }

  lemma {:induction false} EntriesOfWords(words: seq<string>)
    requires forall k :: 0 <= k < |words| ==> IsWord(words[k])
    ensures Names(Entries(words)) == words
    decreases |words|
  {
    if words != [] {
      var w := words[0];
      WordTrims(w);
      EntriesOfWords(words[1..]);
      assert Entries(words) == [CastEntry(w, ActorRole)] + Entries(words[1..]);
      NamesCons(CastEntry(w, ActorRole), Entries(words[1..]));
      assert words == [w] + words[1..];
    }
  }

  /**
   * The round trip with the indexer's cast text: names that are words,
   * joined with single spaces, come back as the same names in order.
   */
  lemma CastRoundTrip(names: seq<string>)
    requires |names| >= 1 && forall k :: 0 <= k < |names| ==> IsWord(names[k])
    ensures Names(TransformCast(Some(Join(names, " ")))) == names
  {
    assert forall k :: 0 <= k < |names| ==> ' ' !in names[k] by {
      forall k | 0 <= k < |names| ensures ' ' !in names[k] {
        assert forall i :: 0 <= i < |names[k]| ==> names[k][i] != ' ';
      }
    }
    var text := Join(names, " ");
    SplitJoin(names, ' ');
    JoinNonEmpty(names);
    assert TruthyText(Some(text));
    assert TransformCast(Some(text)) == Entries(names);
    EntriesOfWords(names);
  }

  /** A join whose first piece is non-empty is non-empty. */
  lemma {:induction false} JoinNonEmpty(names: seq<string>)
    requires |names| >= 1 && names[0] != ""
    ensures Join(names, " ") != ""
  {
  }

  /** "Tom Hanks" gives two actors, Tom and Hanks. */
  lemma TomHanks()
    ensures Names(TransformCast(Some("Tom Hanks"))) == ["Tom", "Hanks"]
  {
    assert Join(["Tom", "Hanks"], " ") == "Tom Hanks";
    assert IsWord("Tom") && IsWord("Hanks");
    CastRoundTrip(["Tom", "Hanks"]);
  }
}
