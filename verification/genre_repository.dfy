/** src/repositories/genre/elastic.py: genre list on the `genres` index,
    get-by-id, and the reverse lookup of a genre's films on the `movies`
    index through a nested match on the genre array. */
module GenreRepository {
  import opened Outcomes
  import opened Documents
  import opened QueryDsl
  import opened SearchEngine
  import opened Pagination
  import opened FilmParams
  import FilmRepository

  /** The body of `all`: the window alone, so every stored genre is
      selected and the result is the requested window of the index. */
  function AllBody(params: PaginationParams): (b: Body)
    ensures b.size == params.limit && b.from == params.offset && b.query.None? && b.sort.None?
    ensures forall d, fuzzy :: BodyMatches(b, d, fuzzy)
  {
    Body(params.limit, params.offset, None, None)
  }

  /** The query of `get_films`: `nested` on `genres` around a one-clause
      `bool.must` matching `genres.id`. It holds of a movie exactly when
      some element of its genre array carries the id. */
  function FilmsQuery(genreId: string): (q: Query)
    ensures q == Nested("genres", BoolMust([Match("genres.id", genreId)]))
    ensures NoEmptyBool(q)
    ensures forall d, fuzzy :: Matches(q, d, fuzzy) <==> HasId(d.genres.GetOr([]), genreId)
  {
    var inner := BoolMust([Match("genres.id", genreId)]);
    assert inner.must[0] == Match("genres.id", genreId);
    assert NoEmptyBool(inner);
    assert forall d, fuzzy :: Matches(Nested("genres", inner), d, fuzzy) <==> HasId(d.genres.GetOr([]), genreId) by {
      forall d: Doc, fuzzy: (string, Doc) -> bool
        ensures Matches(Nested("genres", inner), d, fuzzy) <==> HasId(d.genres.GetOr([]), genreId)
      {
        var refs := d.genres.GetOr([]);
        assert NestedRefs(d, "genres") == refs;
        assert forall k :: 0 <= k < |refs| ==> (ElementMatches(inner, "genres", refs[k]) <==> refs[k].id == genreId);
      }
    }
    Nested("genres", inner)
  }

  /** The body of `get_films`: always with a query, selecting exactly the
      movies that carry the genre. */
  function FilmsBody(genreId: string, params: PaginationParams): (b: Body)
    ensures b.size == params.limit && b.from == params.offset && b.sort.None?
    ensures b.query == Some(FilmsQuery(genreId))
    ensures forall d, fuzzy :: BodyMatches(b, d, fuzzy) <==> HasId(d.genres.GetOr([]), genreId)
  {
    Body(params.limit, params.offset, Some(FilmsQuery(genreId)), None)
  }

  function All(engine: Engine, params: PaginationParams): (r: Result<seq<Hit>, EngineError>)
    ensures SearchMapped(engine.search(SearchRequest(Genres, AllBody(params))), r)
  {
    Execute(engine, SearchRequest(Genres, AllBody(params)))
  }

  function GetById(engine: Engine, genreId: string): (r: Result<Option<Hit>, EngineError>)
    ensures FetchMapped(engine.get(Genres, genreId), r)
  {
    Fetch(engine, Genres, genreId)
  }

  /** `get_films` searches the movies index, not the genres index. */
  function GetFilms(engine: Engine, genreId: string, params: PaginationParams): (r: Result<seq<Hit>, EngineError>)
    ensures SearchMapped(engine.search(SearchRequest(Movies, FilmsBody(genreId, params))), r)
  {
    Execute(engine, SearchRequest(Movies, FilmsBody(genreId, params)))
  }

  /** Against stored movies, the reverse lookup keeps exactly the films
      that carry the genre, each as often as stored, and cuts the window. */
  lemma GetFilmsOverStoredMovies(corpus: map<Index, seq<Hit>>, fuzzy: (string, Doc) -> bool,
                                 genreId: string, params: PaginationParams)
    requires Movies in corpus
    ensures var selected := Select(corpus[Movies], FilmsBody(genreId, params), fuzzy);
      && GetFilms(ReferenceEngine(corpus, fuzzy), genreId, params) == Ok(Window(selected, params.offset, params.limit))
      && (forall h :: multiset(selected)[h]
            == (if HasId(h.source.genres.GetOr([]), genreId) then multiset(corpus[Movies])[h] else 0))
  {
    var selected := Select(corpus[Movies], FilmsBody(genreId, params), fuzzy);
    forall h: Hit
      ensures multiset(selected)[h] == (if HasId(h.source.genres.GetOr([]), genreId) then multiset(corpus[Movies])[h] else 0)
    {
      assert BodyMatches(FilmsBody(genreId, params), h.source, fuzzy) <==> HasId(h.source.genres.GetOr([]), genreId);
    }
  }

  /** The film list filtered by a genre and the genre's reverse lookup
      select the same movies, in the same order, although one uses `term`
      directly under `nested` and the other `match` inside `bool.must`. */
  lemma ListFilterAgreesWithReverseLookup(movies: seq<Hit>, fuzzy: (string, Doc) -> bool, genreId: string,
                                          params: PaginationParams, sort: Option<FilmSortParams>)
    requires genreId != ""
    ensures var listParams := FilmQueryParams(params.limit, params.offset, sort, Some(genreId));
      Select(movies, FilmRepository.ListQueryBody(listParams), fuzzy) == Select(movies, FilmsBody(genreId, params), fuzzy)
  {
    var listParams := FilmQueryParams(params.limit, params.offset, sort, Some(genreId));
    forall k | 0 <= k < |movies|
      ensures BodyMatches(FilmRepository.ListQueryBody(listParams), movies[k].source, fuzzy)
          <==> BodyMatches(FilmsBody(genreId, params), movies[k].source, fuzzy)
    {
      FilmRepository.ListBodySelects(listParams, movies[k].source, fuzzy);
      assert BodyMatches(FilmsBody(genreId, params), movies[k].source, fuzzy)
        <==> HasId(movies[k].source.genres.GetOr([]), genreId);
    }
    SelectSameSelection(movies, FilmRepository.ListQueryBody(listParams), FilmsBody(genreId, params), fuzzy);
  }
}
