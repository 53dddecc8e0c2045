/** src/repositories/film/elastic.py: the film list and search bodies and
    the three calls on the `movies` index. */
module FilmRepository {
  import opened Outcomes
  import opened Documents
  import opened QueryDsl
  import opened SearchEngine
  import opened Sorting
  import opened FilmParams

  /** The genre clause of the list query. */
  function GenreClause(genre: string): Query {
    Nested("genres", Term("genres.id", genre))
  }

  /** `_build_list_query`: `bool.must` with the genre clause when a genre is
      given, otherwise `{}`. */
  function ListQuery(params: FilmQueryParams): (q: Query)
    ensures Truthy(q) <==> Filled(params.genre)
    ensures Truthy(q) ==> q == BoolMust([GenreClause(params.genre.value)])
    ensures NoEmptyBool(q)
  {
    if Filled(params.genre) then
      var q := BoolMust([GenreClause(params.genre.value)]);
      assert q.must[0] == GenreClause(params.genre.value);
      assert NoEmptyBool(GenreClause(params.genre.value));
      q
    else EmptyQuery
  }

  /** `_build_list_query_body`. */
  function ListQueryBody(params: FilmQueryParams): (b: Body)
    ensures b.size == params.limit && b.from == params.offset
    ensures b.query.Some? <==> Filled(params.genre)
    ensures b.query.Some? ==> b.query.value == BoolMust([GenreClause(params.genre.value)])
    ensures b.sort.Some? <==> params.sort.Some?
    ensures params.sort.Some? ==>
      b.sort.value == [SortClause(FilmSortFieldValue(params.sort.value.field), OrderValue(params.sort.value.order))]
  {
    var q := ListQuery(params);
    var sort := match params.sort
      case Some(s) => Some([SortClause(FilmSortFieldValue(s.field), OrderValue(s.order))])
      case None => None;
    Body(params.limit, params.offset, if Truthy(q) then Some(q) else None, sort)
  }

  /** `_build_search_query`: `bool.must` with one fuzzy `multi_match` when a
      query string is given, otherwise `{}`. */
  function SearchQuery(params: FilmSearchParams): (q: Query)
    ensures Truthy(q) <==> Filled(params.query)
    ensures Truthy(q) ==> q == BoolMust([MultiMatch(params.query.value, "AUTO")])
    ensures NoEmptyBool(q)
  {
    if Filled(params.query) then
      var q := BoolMust([MultiMatch(params.query.value, "AUTO")]);
      assert q.must[0] == MultiMatch(params.query.value, "AUTO");
      q
    else EmptyQuery
  }

  /** `_build_search_query_body`. */
  function SearchQueryBody(params: FilmSearchParams): (b: Body)
    ensures b.size == params.limit && b.from == params.offset && b.sort.None?
    ensures b.query.Some? <==> Filled(params.query)
    ensures b.query.Some? ==> b.query.value == BoolMust([MultiMatch(params.query.value, "AUTO")])
  {
    var q := SearchQuery(params);
    Body(params.limit, params.offset, if Truthy(q) then Some(q) else None, None)
  }

  /** `all`. */
  function All(engine: Engine, params: FilmQueryParams): (r: Result<seq<Hit>, EngineError>)
    ensures SearchMapped(engine.search(SearchRequest(Movies, ListQueryBody(params))), r)
  {
    Execute(engine, SearchRequest(Movies, ListQueryBody(params)))
  }

  /** `search`. */
  function Search(engine: Engine, params: FilmSearchParams): (r: Result<seq<Hit>, EngineError>)
    ensures SearchMapped(engine.search(SearchRequest(Movies, SearchQueryBody(params))), r)
  {
    Execute(engine, SearchRequest(Movies, SearchQueryBody(params)))
  }

  /** `get_by_id`. */
  function GetById(engine: Engine, filmId: string): (r: Result<Option<Hit>, EngineError>)
    ensures FetchMapped(engine.get(Movies, filmId), r)
  {
    Fetch(engine, Movies, filmId)
  }

  /** The list body selects exactly the films carrying the requested genre,
      and every film when no genre is given. */
  lemma ListBodySelects(params: FilmQueryParams, d: Doc, fuzzy: (string, Doc) -> bool)
    ensures BodyMatches(ListQueryBody(params), d, fuzzy)
        <==> !Filled(params.genre) || HasId(d.genres.GetOr([]), params.genre.value)
  {
    if Filled(params.genre) {
      var g := params.genre.value;
      var refs := d.genres.GetOr([]);
      assert NestedRefs(d, "genres") == refs;
      MustOfOne(GenreClause(g), d, fuzzy);
      assert forall k :: 0 <= k < |refs| ==> (ElementMatches(Term("genres.id", g), "genres", refs[k]) <==> refs[k].id == g);
    }
  }

  /** The search body selects what the text predicate accepts, and every
      film when the query string is absent or empty. */
  lemma SearchBodySelects(params: FilmSearchParams, d: Doc, fuzzy: (string, Doc) -> bool)
    ensures BodyMatches(SearchQueryBody(params), d, fuzzy) <==> !Filled(params.query) || fuzzy(params.query.value, d)
  {
    if Filled(params.query) {
      MustOfOne(MultiMatch(params.query.value, "AUTO"), d, fuzzy);
    }
  }

  /** Against stored movies, a list request returns the requested window of
      the films that carry the genre, each at most as often as stored; a
      missing index gives the empty list rather than an error. */
  lemma AllOverStoredMovies(corpus: map<Index, seq<Hit>>, fuzzy: (string, Doc) -> bool, params: FilmQueryParams)
    ensures var r := All(ReferenceEngine(corpus, fuzzy), params);
      && r.Ok?
      && (Movies !in corpus ==> r.value == [])
      && |r.value| <= (if params.limit < 0 then 0 else params.limit)
      && (forall h :: h in r.value ==> Movies in corpus && h in corpus[Movies])
      && (forall h :: h in r.value && Filled(params.genre) ==> HasId(h.source.genres.GetOr([]), params.genre.value))
  {
    var r := All(ReferenceEngine(corpus, fuzzy), params);
    if Movies in corpus {
      var body := ListQueryBody(params);
      var sel := Select(corpus[Movies], body, fuzzy);
      assert r.value == Window(sel, params.offset, params.limit);
      forall h | h in r.value
        ensures h in corpus[Movies]
        ensures Filled(params.genre) ==> HasId(h.source.genres.GetOr([]), params.genre.value)
      {
        assert multiset(r.value)[h] > 0;
        assert h in sel;
        ListBodySelects(params, h.source, fuzzy);
      }
    }
  }

  /** The page-4 request of eight films over thirty films of one genre
      returns the six that remain. */
  lemma LastPartialPageExample(corpus: map<Index, seq<Hit>>, fuzzy: (string, Doc) -> bool, genre: string)
    requires Movies in corpus && |corpus[Movies]| == 30
    requires genre != ""
    requires forall k :: 0 <= k < 30 ==> HasId(corpus[Movies][k].source.genres.GetOr([]), genre)
    ensures var params := FilmQueryParams(8, 24, Some(SortParams(ImdbRating, Desc)), Some(genre));
      All(ReferenceEngine(corpus, fuzzy), params) == Ok(corpus[Movies][24..30])
  {
    var params := FilmQueryParams(8, 24, Some(SortParams(ImdbRating, Desc)), Some(genre));
    var body := ListQueryBody(params);
    forall k | 0 <= k < 30
      ensures BodyMatches(body, corpus[Movies][k].source, fuzzy)
    {
      ListBodySelects(params, corpus[Movies][k].source, fuzzy);
    }
    SelectEverything(corpus[Movies], body, fuzzy);
  }
}
