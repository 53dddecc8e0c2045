/** src/services/person.py: `PersonService` over the person repository. */
module PersonService {
  import opened Outcomes
  import opened Documents
  import opened QueryDsl
  import opened SearchEngine
  import opened Pagination
  import opened PersonParams
  import opened Services
  import PersonRepository

  /** `all`: `[]` for an empty answer, otherwise one person per hit, in order. */
  function All(engine: Engine, params: PaginationParams): (r: Result<seq<Person>, ServiceError>)
    ensures ListServed(PersonRepository.All(engine, params), ToPerson, r)
  {
    ServeList(PersonRepository.All(engine, params), ToPerson)
  }

  /** `search`: the same rule over the search answer. */
  function Search(engine: Engine, params: PersonSearchParams): (r: Result<seq<Person>, ServiceError>)
    ensures ListServed(PersonRepository.Search(engine, params), ToPerson, r)
  {
    ServeList(PersonRepository.Search(engine, params), ToPerson)
  }

  /** `get_by_id`: `None` exactly when the repository found nothing. */
  function GetById(engine: Engine, personId: string): (r: Result<Option<Person>, ServiceError>)
    ensures OneServed(PersonRepository.GetById(engine, personId), ToPerson, r)
    ensures r == Ok(None) <==> PersonRepository.GetById(engine, personId) == Ok(None)
  {
    ServeOne(PersonRepository.GetById(engine, personId), ToPerson)
  }

  /** `get_films_by_person`: `PersonNotFound` when the person is absent (and
      the films are not fetched); otherwise the films the person has any
      role on, as short records, in order, `[]` when there are none. */
  function GetFilmsByPerson(engine: Engine, personId: string, params: PaginationParams)
    : (r: Traced<Result<seq<FilmBrief>, ServiceError>>)
    ensures ReverseLookupServed(PersonRepository.GetById(engine, personId), PersonRepository.GetFilms(engine, personId, params),
                                ToFilmBrief, PersonNotFound, personId, r)
  {
    ServeReverseLookup(PersonRepository.GetById(engine, personId), PersonRepository.GetFilms(engine, personId, params),
                       ToFilmBrief, PersonNotFound, personId)
  }

  /** Against stored indices, an unknown person is `PersonNotFound`, while a
      stored person with no role on any film gives the empty list. */
  lemma ParentAbsentVersusNoFilms(corpus: map<Index, seq<Hit>>, fuzzy: (string, Doc) -> bool,
                                  personId: string, params: PaginationParams)
    requires Persons in corpus && Movies in corpus
    ensures var r := GetFilmsByPerson(ReferenceEngine(corpus, fuzzy), personId, params);
      && (FindById(corpus[Persons], personId).None? ==> r.result == Err(PersonNotFound) && r.calls == [GetByIdCall(personId)])
      && (FindById(corpus[Persons], personId).Some?
          && (forall k :: 0 <= k < |corpus[Movies]| ==> !PersonRepository.InAnyRole(corpus[Movies][k].source, personId))
          ==> r.result == Ok([]))
  {
    PersonRepository.GetFilmsOverStoredMovies(corpus, fuzzy, personId, params);
    var selected := Select(corpus[Movies], PersonRepository.FilmsBody(personId, params), fuzzy);
    if forall k :: 0 <= k < |corpus[Movies]| ==> !PersonRepository.InAnyRole(corpus[Movies][k].source, personId) {
      forall h: Hit
        ensures multiset(selected)[h] == 0
      {
        if h in corpus[Movies] {
          var k :| 0 <= k < |corpus[Movies]| && corpus[Movies][k] == h;
        }
      }
      assert multiset(selected) == multiset{};
      assert |selected| == |multiset(selected)|;
    }
  }
}
