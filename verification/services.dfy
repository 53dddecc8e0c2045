/** What the three domain services (src/services/film.py, genre.py,
    person.py) share: projecting repository hits to entities in order,
    the `X | None` lookup, and the error kinds a service call can end in. */
module Services {
  import opened Outcomes
  import opened Documents
  import opened SearchEngine

  datatype ServiceError =
    | EngineFailure(cause: EngineError)   // a search-engine failure other than NotFoundError
    | ValidationError(position: nat)      // the hit at this position lacks a field the entity needs
    | GenreNotFound
    | PersonNotFound

  /** The repository calls a reverse lookup makes, in order. */
  datatype RepoCall = GetByIdCall(id: string) | GetFilmsCall(id: string)

  datatype Traced<T> = Traced(result: T, calls: seq<RepoCall>)

  /** The projection of a hit list, independently of how it is computed:
      one entity per hit in the same order when every hit projects, and
      otherwise a validation error naming the first hit that does not. */
  ghost predicate ProjectedInOrder<E>(hits: seq<Hit>, project: Hit -> Option<E>, r: Result<seq<E>, ServiceError>) {
    && (r.Ok? <==> forall i :: 0 <= i < |hits| ==> project(hits[i]).Some?)
    && (r.Ok? ==> |r.value| == |hits| && forall i :: 0 <= i < |hits| ==> r.value[i] == project(hits[i]).value)
    && (r.Err? ==> r.error.ValidationError? && r.error.position < |hits|
                   && project(hits[r.error.position]).None?
                   && forall i :: 0 <= i < r.error.position ==> project(hits[i]).Some?)
  }

  /** `[serializer.serialize(x) for x in xs]`: stops at the first hit the
      entity cannot be built from. */
  function MapAll<E>(hits: seq<Hit>, project: Hit -> Option<E>): (r: Result<seq<E>, ServiceError>)
    ensures ProjectedInOrder(hits, project, r)
  {
    if |hits| == 0 then Ok([])
    else match project(hits[0])
      case None => Err(ValidationError(0))
      case Some(e) =>
        var rest := MapAll(hits[1..], project);
        assert forall i :: 1 <= i < |hits| ==> hits[i] == hits[1..][i - 1];
        match rest
        case Ok(es) => Ok([e] + es)
        case Err(err) => Err(ValidationError(err.position + 1))
  }

  /** What a list operation of a service returns for a repository answer. */
  ghost predicate ListServed<E>(fetched: Result<seq<Hit>, EngineError>, project: Hit -> Option<E>,
                                r: Result<seq<E>, ServiceError>) {
    && (fetched.Err? ==> r == Err(EngineFailure(fetched.error)))
    && (fetched == Ok([]) ==> r == Ok([]))
    && (fetched.Ok? ==> ProjectedInOrder(fetched.value, project, r))
  }

  /** `if xs := await repo.op(...): return [serialize(x) for x in xs]` and
      `return []` otherwise. */
  function ServeList<E>(fetched: Result<seq<Hit>, EngineError>, project: Hit -> Option<E>)
    : (r: Result<seq<E>, ServiceError>)
    ensures ListServed(fetched, project, r)
  {
    match fetched
    case Err(e) => Err(EngineFailure(e))
    case Ok(hits) => if |hits| > 0 then MapAll(hits, project) else Ok([])
  }

  /** What a get-by-id operation of a service returns for a repository answer. */
  ghost predicate OneServed<E>(fetched: Result<Option<Hit>, EngineError>, project: Hit -> Option<E>,
                               r: Result<Option<E>, ServiceError>) {
    && (fetched.Err? ==> r == Err(EngineFailure(fetched.error)))
    && (fetched == Ok(None) ==> r == Ok(None))
    && (fetched.Ok? && fetched.value.Some? ==>
          r == if project(fetched.value.value).Some?
               then Ok(Some(project(fetched.value.value).value))
               else Err(ValidationError(0)))
  }

  /** `if x := await repo.get_by_id(id): return serialize(x)` and `return
      None` otherwise; `None` comes back exactly when the repository found
      nothing. */
  function ServeOne<E>(fetched: Result<Option<Hit>, EngineError>, project: Hit -> Option<E>)
    : (r: Result<Option<E>, ServiceError>)
    ensures OneServed(fetched, project, r)
    ensures r == Ok(None) <==> fetched == Ok(None)
  {
    match fetched
    case Err(e) => Err(EngineFailure(e))
    case Ok(None) => Ok(None)
    case Ok(Some(h)) =>
      match project(h)
      case Some(x) => Ok(Some(x))
      case None => Err(ValidationError(0))
  }

  /** The reverse-lookup shape: the parent's existence is checked first, an
      absent parent is `notFound` and the films are never fetched, and an
      existing parent's films are served in order, `[]` when there are none. */
  ghost predicate ReverseLookupServed<E>(parent: Result<Option<Hit>, EngineError>, films: Result<seq<Hit>, EngineError>,
                                         project: Hit -> Option<E>, notFound: ServiceError, id: string,
                                         r: Traced<Result<seq<E>, ServiceError>>) {
    && (parent.Err? ==> r.result == Err(EngineFailure(parent.error)) && r.calls == [GetByIdCall(id)])
    && (parent == Ok(None) ==> r.result == Err(notFound) && r.calls == [GetByIdCall(id)])
    && (parent.Ok? && parent.value.Some? ==>
          && r.calls == [GetByIdCall(id), GetFilmsCall(id)]
          && ListServed(films, project, r.result))
  }

  function ServeReverseLookup<E>(parent: Result<Option<Hit>, EngineError>, films: Result<seq<Hit>, EngineError>,
                                 project: Hit -> Option<E>, notFound: ServiceError, id: string)
    : (r: Traced<Result<seq<E>, ServiceError>>)
    ensures ReverseLookupServed(parent, films, project, notFound, id, r)
  {
    match parent
    case Err(e) => Traced(Err(EngineFailure(e)), [GetByIdCall(id)])
    case Ok(None) => Traced(Err(notFound), [GetByIdCall(id)])
    case Ok(Some(_)) => Traced(ServeList(films, project), [GetByIdCall(id), GetFilmsCall(id)])
  }
}
