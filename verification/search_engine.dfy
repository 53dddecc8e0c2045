/** The search engine as the repositories see it (src/constants/elastic.py
    and the client calls in the three elastic repositories).

    The engine is a pair of functions: `search` answers a request on one
    index and `get` looks up one document by id; both either answer or
    raise. `NotFoundError` is the one exception the repositories catch;
    anything else (connection or transport failure) propagates. */
module SearchEngine {
  import opened Outcomes
  import opened Documents
  import opened QueryDsl

  /** src/constants/elastic.py `ElasticIndexNames`: the `genres`, `movies`
      and `persons` indices. */
  datatype Index = Genres | Movies | Persons

  datatype EngineError = NotFoundError | TransportError(reason: string)

  /** `elastic.search(index=..., body=...)`. */
  datatype SearchRequest = SearchRequest(index: Index, body: Body)

  datatype Engine = Engine(
    search: SearchRequest -> Result<seq<Hit>, EngineError>,
    get: (Index, string) -> Result<Hit, EngineError>)

  /** How a repository treats a search answer: the hits of an answer are
      returned unchanged, `NotFoundError` becomes the empty list, and any
      other failure propagates. */
  predicate SearchMapped(answer: Result<seq<Hit>, EngineError>, r: Result<seq<Hit>, EngineError>) {
    && (answer.Ok? ==> r == answer)
    && (answer == Err(NotFoundError) ==> r == Ok([]))
    && (answer.Err? && answer.error != NotFoundError ==> r == answer)
  }

  /** How a repository treats a get-by-id answer: the document, `None` for
      `NotFoundError`, and any other failure propagates. */
  predicate FetchMapped(answer: Result<Hit, EngineError>, r: Result<Option<Hit>, EngineError>) {
    && (answer.Ok? ==> r == Ok(Some(answer.value)))
    && (answer == Err(NotFoundError) ==> r == Ok(None))
    && (answer.Err? && answer.error != NotFoundError ==> r == Err(answer.error))
  }

  /** A search call inside `try ... except NotFoundError`. */
  function Execute(engine: Engine, req: SearchRequest): (r: Result<seq<Hit>, EngineError>)
    ensures SearchMapped(engine.search(req), r)
  {
    match engine.search(req)
    case Ok(hits) => Ok(hits)
    case Err(NotFoundError) => Ok([])
    case Err(e) => Err(e)
  }

  /** A get-by-id call inside `try ... except NotFoundError`. */
  function Fetch(engine: Engine, index: Index, id: string): (r: Result<Option<Hit>, EngineError>)
    ensures FetchMapped(engine.get(index, id), r)
  {
    match engine.get(index, id)
    case Ok(h) => Ok(Some(h))
    case Err(NotFoundError) => Ok(None)
    case Err(e) => Err(e)
  }

  /** The first stored hit with the given id. */
  function FindById(hits: seq<Hit>, id: string): (r: Option<Hit>)
    ensures r.Some? <==> exists k :: 0 <= k < |hits| && hits[k].id == id
    ensures r.Some? ==> r.value in hits && r.value.id == id
  {
    if |hits| == 0 then None
    else if hits[0].id == id then Some(hits[0])
    else
      var r := FindById(hits[1..], id);
      assert forall k :: 1 <= k < |hits| ==> hits[k] == hits[1..][k - 1];
      r
  }

  /** A reference engine over stored indices: an index that does not exist
      raises `NotFoundError`; a search selects by the body's query and
      returns the `from`/`size` window; a get of an unknown id raises
      `NotFoundError`. */
  function ReferenceSearch(corpus: map<Index, seq<Hit>>, fuzzy: (string, Doc) -> bool, req: SearchRequest)
    : (r: Result<seq<Hit>, EngineError>)
    ensures r.Ok? <==> req.index in corpus
    ensures r.Ok? ==> r.value == Window(Select(corpus[req.index], req.body, fuzzy), req.body.from, req.body.size)
  {
    if req.index !in corpus then Err(NotFoundError)
    else Ok(Window(Select(corpus[req.index], req.body, fuzzy), req.body.from, req.body.size))
  }

  function ReferenceGet(corpus: map<Index, seq<Hit>>, index: Index, id: string): (r: Result<Hit, EngineError>)
    ensures r.Ok? <==> index in corpus && FindById(corpus[index], id).Some?
    ensures r.Err? ==> r.error == NotFoundError
    ensures r.Ok? ==> r.value in corpus[index] && r.value.id == id
  {
    if index !in corpus then Err(NotFoundError)
    else match FindById(corpus[index], id)
      case Some(h) => Ok(h)
      case None => Err(NotFoundError)
  }

  function ReferenceEngine(corpus: map<Index, seq<Hit>>, fuzzy: (string, Doc) -> bool): Engine {
    Engine(req => ReferenceSearch(corpus, fuzzy, req), (i, id) => ReferenceGet(corpus, i, id))
  }
}
