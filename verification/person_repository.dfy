/** src/repositories/person/elastic.py: person list and search on the
    `persons` index, get-by-id, and the reverse lookup of a person's films
    on the `movies` index through an OR over the three role arrays. */
module PersonRepository {
  import opened Outcomes
  import opened Documents
  import opened QueryDsl
  import opened SearchEngine
  import opened Pagination
  import opened PersonParams

  /** The role arrays, in the order the query lists them. */
  const Roles: seq<string> := ["actors", "directors", "writers"]

  /** One role clause: a `nested` match of `<role>.id` on the role's array. */
  function RoleClause(role: string, personId: string): Query {
    Nested(role, Match(role + ".id", personId))
  }

  /** `_build_person_role_search_query`. */
  function PersonRoleSearchQuery(personId: string): (qs: seq<Query>)
    ensures |qs| == |Roles|
    ensures forall i :: 0 <= i < |Roles| ==> qs[i] == Nested(Roles[i], Match(Roles[i] + ".id", personId))
  {
    [RoleClause("actors", personId), RoleClause("directors", personId), RoleClause("writers", personId)]
  }

  /** The person holds some role on the film. */
  predicate InAnyRole(d: Doc, personId: string) {
    || HasId(d.actors.GetOr([]), personId)
    || HasId(d.directors.GetOr([]), personId)
    || HasId(d.writers.GetOr([]), personId)
  }

  lemma RoleClauseSelects(role: string, personId: string, d: Doc, fuzzy: (string, Doc) -> bool)
    ensures Matches(RoleClause(role, personId), d, fuzzy) <==> HasId(NestedRefs(d, role), personId)
  {
  }

  /** The body of `all`: the window alone, so every stored person is
      selected and the result is the requested window of the index. */
  function AllBody(params: PaginationParams): (b: Body)
    ensures b.size == params.limit && b.from == params.offset && b.query.None? && b.sort.None?
    ensures forall d, fuzzy :: BodyMatches(b, d, fuzzy)
  {
    Body(params.limit, params.offset, None, None)
  }

  /** The body of `search`: a `query` key only for a filled query string,
      holding `_build_search_query_body`'s one-clause `bool.must` around a
      fuzzy `multi_match`. */
  function SearchBody(params: PersonSearchParams): (b: Body)
    ensures b.size == params.limit && b.from == params.offset && b.sort.None?
    ensures b.query.Some? <==> Filled(params.query)
    ensures b.query.Some? ==> b.query.value == BoolMust([MultiMatch(params.query.value, "AUTO")])
  {
    Body(params.limit, params.offset, if Filled(params.query) then Some(BoolMust([MultiMatch(params.query.value, "AUTO")])) else None, None)
  }

  /** The body of `get_films`: an OR over the three role clauses, selecting
      a film exactly when the person is one of its actors, directors or
      writers. */
  function FilmsBody(personId: string, params: PaginationParams): (b: Body)
    ensures b.size == params.limit && b.from == params.offset && b.sort.None?
    ensures b.query == Some(BoolShould(PersonRoleSearchQuery(personId)))
    ensures forall d, fuzzy :: BodyMatches(b, d, fuzzy) <==> InAnyRole(d, personId)
  {
    var qs := PersonRoleSearchQuery(personId);
    assert forall d, fuzzy :: Matches(BoolShould(qs), d, fuzzy) <==> InAnyRole(d, personId) by {
      forall d: Doc, fuzzy: (string, Doc) -> bool
        ensures Matches(BoolShould(qs), d, fuzzy) <==> InAnyRole(d, personId)
      {
        RoleClauseSelects("actors", personId, d, fuzzy);
        RoleClauseSelects("directors", personId, d, fuzzy);
        RoleClauseSelects("writers", personId, d, fuzzy);
        assert NestedRefs(d, "actors") == d.actors.GetOr([]);
        assert NestedRefs(d, "directors") == d.directors.GetOr([]);
        assert NestedRefs(d, "writers") == d.writers.GetOr([]);
        assert Matches(BoolShould(qs), d, fuzzy) <==> Matches(qs[0], d, fuzzy) || Matches(qs[1], d, fuzzy) || Matches(qs[2], d, fuzzy);
      }
    }
    Body(params.limit, params.offset, Some(BoolShould(qs)), None)
  }

  function All(engine: Engine, params: PaginationParams): (r: Result<seq<Hit>, EngineError>)
    ensures SearchMapped(engine.search(SearchRequest(Persons, AllBody(params))), r)
  {
    Execute(engine, SearchRequest(Persons, AllBody(params)))
  }

  function Search(engine: Engine, params: PersonSearchParams): (r: Result<seq<Hit>, EngineError>)
    ensures SearchMapped(engine.search(SearchRequest(Persons, SearchBody(params))), r)
  {
    Execute(engine, SearchRequest(Persons, SearchBody(params)))
  }

  function GetById(engine: Engine, personId: string): (r: Result<Option<Hit>, EngineError>)
    ensures FetchMapped(engine.get(Persons, personId), r)
  {
    Fetch(engine, Persons, personId)
  }

  /** `get_films` searches the movies index, not the persons index. */
  function GetFilms(engine: Engine, personId: string, params: PaginationParams): (r: Result<seq<Hit>, EngineError>)
    ensures SearchMapped(engine.search(SearchRequest(Movies, FilmsBody(personId, params))), r)
  {
    Execute(engine, SearchRequest(Movies, FilmsBody(personId, params)))
  }

  /** The search body selects what the text predicate accepts, and every
      person when the query string is absent or empty. */
  lemma SearchBodySelects(params: PersonSearchParams, d: Doc, fuzzy: (string, Doc) -> bool)
    ensures BodyMatches(SearchBody(params), d, fuzzy) <==> !Filled(params.query) || fuzzy(params.query.value, d)
  {
    if Filled(params.query) {
      MustOfOne(MultiMatch(params.query.value, "AUTO"), d, fuzzy);
    }
  }

  /** Against stored movies, the reverse lookup keeps exactly the films the
      person has any role on, each as often as it is stored, so a film on
      which the person is both actor and writer is listed once; the window
      is then cut from that list. */
  lemma GetFilmsOverStoredMovies(corpus: map<Index, seq<Hit>>, fuzzy: (string, Doc) -> bool,
                                 personId: string, params: PaginationParams)
    requires Movies in corpus
    ensures var selected := Select(corpus[Movies], FilmsBody(personId, params), fuzzy);
      && GetFilms(ReferenceEngine(corpus, fuzzy), personId, params) == Ok(Window(selected, params.offset, params.limit))
      && (forall h :: multiset(selected)[h] == (if InAnyRole(h.source, personId) then multiset(corpus[Movies])[h] else 0))
  {
    var selected := Select(corpus[Movies], FilmsBody(personId, params), fuzzy);
    forall h: Hit
      ensures multiset(selected)[h] == (if InAnyRole(h.source, personId) then multiset(corpus[Movies])[h] else 0)
    {
      assert BodyMatches(FilmsBody(personId, params), h.source, fuzzy) <==> InAnyRole(h.source, personId);
    }
  }
}
