/** src/services/genre.py: `GenreService` over the genre repository. */
module GenreService {
  import opened Outcomes
  import opened Documents
  import opened QueryDsl
  import opened SearchEngine
  import opened Pagination
  import opened Services
  import GenreRepository

  /** `all`: `[]` for an empty answer, otherwise one genre per hit, in order. */
  function All(engine: Engine, params: PaginationParams): (r: Result<seq<Genre>, ServiceError>)
    ensures ListServed(GenreRepository.All(engine, params), ToGenre, r)
  {
    ServeList(GenreRepository.All(engine, params), ToGenre)
  }

  /** `get_by_id`: `None` exactly when the repository found nothing. */
  function GetById(engine: Engine, genreId: string): (r: Result<Option<Genre>, ServiceError>)
    ensures OneServed(GenreRepository.GetById(engine, genreId), ToGenre, r)
    ensures r == Ok(None) <==> GenreRepository.GetById(engine, genreId) == Ok(None)
  {
    ServeOne(GenreRepository.GetById(engine, genreId), ToGenre)
  }

  /** `get_films_by_genre`: `GenreNotFound` when the genre is absent (and
      the films are not fetched); otherwise the genre's films as short
      records, in order, `[]` when it has none. */
  function GetFilmsByGenre(engine: Engine, genreId: string, params: PaginationParams)
    : (r: Traced<Result<seq<FilmBrief>, ServiceError>>)
    ensures ReverseLookupServed(GenreRepository.GetById(engine, genreId), GenreRepository.GetFilms(engine, genreId, params),
                                ToFilmBrief, GenreNotFound, genreId, r)
  {
    ServeReverseLookup(GenreRepository.GetById(engine, genreId), GenreRepository.GetFilms(engine, genreId, params),
                       ToFilmBrief, GenreNotFound, genreId)
  }

  /** Against stored indices, an unknown genre is `GenreNotFound`, while a
      stored genre that no film carries gives the empty list: the two cases
      stay distinguishable. */
  lemma ParentAbsentVersusNoFilms(corpus: map<Index, seq<Hit>>, fuzzy: (string, Doc) -> bool,
                                  genreId: string, params: PaginationParams)
    requires Genres in corpus && Movies in corpus
    ensures var r := GetFilmsByGenre(ReferenceEngine(corpus, fuzzy), genreId, params);
      && (FindById(corpus[Genres], genreId).None? ==> r.result == Err(GenreNotFound) && r.calls == [GetByIdCall(genreId)])
      && (FindById(corpus[Genres], genreId).Some?
          && (forall k :: 0 <= k < |corpus[Movies]| ==> !HasId(corpus[Movies][k].source.genres.GetOr([]), genreId))
          ==> r.result == Ok([]))
  {
    GenreRepository.GetFilmsOverStoredMovies(corpus, fuzzy, genreId, params);
    var selected := Select(corpus[Movies], GenreRepository.FilmsBody(genreId, params), fuzzy);
    if forall k :: 0 <= k < |corpus[Movies]| ==> !HasId(corpus[Movies][k].source.genres.GetOr([]), genreId) {
      forall h: Hit
        ensures multiset(selected)[h] == 0
      {
        if h in corpus[Movies] {
          var k :| 0 <= k < |corpus[Movies]| && corpus[Movies][k] == h;
        }
      }
      assert multiset(selected) == multiset{};
      assert |selected| == |multiset(selected)|;
    }
  }
}
