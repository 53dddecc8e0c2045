/** src/services/film.py: `FilmService` over the film repository. */
module FilmService {
  import opened Outcomes
  import opened QueryDsl
  import opened Documents
  import opened SearchEngine
  import opened FilmParams
  import opened Services
  import FilmRepository

  /** `all`: `[]` for an empty answer, otherwise one film per hit, in order. */
  function All(engine: Engine, params: FilmQueryParams): (r: Result<seq<Film>, ServiceError>)
    ensures ListServed(FilmRepository.All(engine, params), ToFilm, r)
  {
    ServeList(FilmRepository.All(engine, params), ToFilm)
  }

  /** `search`: the same rule over the search answer. */
  function Search(engine: Engine, params: FilmSearchParams): (r: Result<seq<Film>, ServiceError>)
    ensures ListServed(FilmRepository.Search(engine, params), ToFilm, r)
  {
    ServeList(FilmRepository.Search(engine, params), ToFilm)
  }

  /** `get_by_id`: `None` exactly when the repository found nothing. */
  function GetById(engine: Engine, filmId: string): (r: Result<Option<Film>, ServiceError>)
    ensures OneServed(FilmRepository.GetById(engine, filmId), ToFilm, r)
    ensures r == Ok(None) <==> FilmRepository.GetById(engine, filmId) == Ok(None)
  {
    ServeOne(FilmRepository.GetById(engine, filmId), ToFilm)
  }

  /** Against stored movies that all carry the film fields, a list request
      succeeds with at most `limit` films, each the projection of a stored
      movie and, under a genre filter, each of that genre. */
  lemma AllOverStoredMovies(corpus: map<Index, seq<Hit>>, fuzzy: (string, Doc) -> bool, params: FilmQueryParams)
    requires Movies in corpus
    requires forall k :: 0 <= k < |corpus[Movies]| ==> ToFilm(corpus[Movies][k]).Some?
    ensures var r := All(ReferenceEngine(corpus, fuzzy), params);
      && r.Ok?
      && |r.value| <= (if params.limit < 0 then 0 else params.limit)
      && forall i :: 0 <= i < |r.value| ==>
           && (exists k :: 0 <= k < |corpus[Movies]| && ToFilm(corpus[Movies][k]) == Some(r.value[i]))
           && (Filled(params.genre) ==> HasId(r.value[i].genres, params.genre.value))
  {
    var engine := ReferenceEngine(corpus, fuzzy);
    var hits := FilmRepository.All(engine, params);
    FilmRepository.AllOverStoredMovies(corpus, fuzzy, params);
    var r := All(engine, params);
    forall i | 0 <= i < |hits.value|
      ensures ToFilm(hits.value[i]).Some?
    {
      assert hits.value[i] in hits.value;
      var k :| 0 <= k < |corpus[Movies]| && corpus[Movies][k] == hits.value[i];
    }
    assert r.Ok?;
    forall i | 0 <= i < |r.value|
      ensures exists k :: 0 <= k < |corpus[Movies]| && ToFilm(corpus[Movies][k]) == Some(r.value[i])
      ensures Filled(params.genre) ==> HasId(r.value[i].genres, params.genre.value)
    {
      var h := hits.value[i];
      assert h in hits.value;
      var k :| 0 <= k < |corpus[Movies]| && corpus[Movies][k] == h;
      assert ToFilm(h) == Some(r.value[i]);
    }
  }
}
