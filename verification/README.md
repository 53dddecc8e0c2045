# cinema-api core in Dafny

This project models the read path of cinema-api, a read-only film catalogue
service. Films, genres and persons are stored in three Elasticsearch indices
(`movies`, `genres`, `persons`), and Redis sits in front as a response cache.
The model covers:

- **Request parameters.** Page size and page number become a `limit`/`offset` pair
  (`Pagination`). A sort string is parsed against an allow-list of sortable
  fields (`Sorting`). The film list and search parameter records are assembled
  from these (`FilmParams`).
- **Query documents.** The three Elasticsearch repositories build search bodies
  (`FilmRepository`, `PersonRepository`, `GenreRepository`). A body is an algebraic
  datatype (`QueryDsl.Query`, `QueryDsl.Body`). The engine is a pair of functions
  that either answer or fail with `NotFoundError` or a transport error
  (`SearchEngine.Engine`). Each repository maps `NotFoundError` to `[]` or `None`
  and lets every other failure propagate.
- **A reference reading of query documents.** `QueryDsl.Matches` decides which
  stored documents a query selects, and `QueryDsl.Window` cuts the `from`/`size`
  window. `SearchEngine.ReferenceEngine` combines them. This gives the built
  queries a meaning that can be checked: the genre filter keeps the films of that
  genre, and the person reverse lookup keeps the films on which the person holds
  any role.
- **Domain services.** The services turn hits into entities in order (`Services`,
  `FilmService`, `GenreService`, `PersonService`). For the reverse lookups they
  check that the genre or person exists before they fetch its films. This keeps
  "not found" apart from "exists, no films".
- **The read-through cache.**
  - The cache key is `prefix + ":" + url`.
  - A truthy stored payload is answered from the store, without running the
    wrapped operation.
  - On a miss the operation runs once, and a successful result is stored with an
    expiry.
  - This is modelled as a state transformer over `map<string, Entry>`
    (`RedisCache`).
- **The cache serializer.** It writes a list as a JSON array of item texts and a
  single model as its own text. It decides the shape to deserialize from the
  payload (`JsonSerializer`).
- **The bulk loader.** It generates bulk-index actions and creates indices
  idempotently (`EtlClient`).

Elasticsearch, Redis and pydantic are not modelled themselves. Each becomes a
parameter:

- an `Engine` value, or a stored corpus for the reference engine;
- a `Store` map;
- an `ItemCodec` whose `Lawful` requirement states the round trip of a model's
  JSON text.

Multi-match relevance is a caller-supplied predicate `fuzzy`.

Two behaviours of the code shape the model:

- `JsonSerializer.Deserialize` picks the list or single shape from the payload
  itself (`isinstance(items, list)`, src/cache/serializers/json.py:16). No
  shape hint comes from the caller.
- `RedisCache.Cache` raises on a missing request before it reads the store
  (src/cache/managers/redis.py:25-27). Store errors are not turned into misses;
  the store is a total map here, so it cannot fail.

## Model

| member | source | states |
|---|---|---|
| Pagination.MakePaginationParams | src/models/base.py:50-57 | the record is built exactly when `limit > 0` and `offset >= 0`; otherwise the error names exactly the failing fields |
| Pagination.GetPaginationParams | src/dependencies/base.py:6-18 | limit is the page size when positive, else 12; the result always passes the record's constraints; offset is a multiple of limit; the page number (when at least 1) is recovered as `offset / limit + 1`; pages below 2 start at 0 |
| Pagination.DivModUnique | src/dependencies/base.py:13 | a quotient and an in-range remainder determine Euclidean division, which recovers the page number from the offset |
| Pagination.ConsecutivePagesAdjacent | src/dependencies/base.py:13 | for page numbers from 1 up, page n + 1 starts exactly where page n ends, with the same limit |
| Pagination.DistinctPagesDisjoint | src/dependencies/base.py:13 | for page numbers from 1 up, the windows of two different pages do not overlap: the earlier ends at or before the later starts |
| Pagination.Examples | src/dependencies/base.py:7-13 | the defaults give (12, 0); size 8 and page 4 give (8, 24); zero or negative inputs give (12, 0) |
| Sorting.GetValues | src/models/base.py:15-18 | the enum's values, one per member, in declaration order |
| Sorting.Lookup | src/models/base.py:38 | `fields_class(value)` finds a member exactly when some member has that value, and the member it finds has it |
| Sorting.StrippedName | src/models/base.py:29-32 | with a leading `-`, the name is the string with exactly that one character removed; otherwise it is the whole string |
| Sorting.ParseSortParam | src/models/base.py:27-39 | parsing succeeds exactly when the stripped name is an allowed value; the field then carries that value and the order is descending exactly for a leading `-`; a rejection is a 400 naming the stripped field |
| Sorting.LookupFindsMember | src/models/base.py:38 | with distinct values, looking up a member's value finds that member |
| Sorting.ParseSortStringRoundTrip | src/models/base.py:27-39 | parsing the query-string form of any sort parameters gives them back, when values are distinct and do not start with `-` |
| FilmParams.FilmSortAllowList | src/models/film.py:33-43 | the film allow-list is exactly `imdb_rating`; only `imdb_rating` (ascending) and `-imdb_rating` (descending) parse, and every other string is a 400 |
| FilmParams.GetFilmListParams | src/dependencies/film.py:16-29 | a filled sort is parsed and its rejection is the call's rejection; an absent or empty sort gives no sort; limit, offset and genre pass through unchanged |
| FilmParams.GetFilmSearchParams | src/dependencies/film.py:32-42 | limit, offset and the query string (absent allowed) are copied unchanged |
| PersonParams.GetPersonSearchParams | src/dependencies/person.py:16-26 | limit and offset are the pagination's, and the query string is passed through as given |
| FilmParams.DefaultFilmSortExample | src/dependencies/film.py:18-23 | the default `-imdb_rating` gives a descending rating sort; an empty sort string gives no sort |
| FilmParams.WrongFieldSortExample | src/models/film.py:33-43 | `wrong field` is rejected with a 400 and no parameter record is built |
| FilmParams.DoubleDashSortExample | src/models/base.py:30-36 | only one `-` is stripped: `--imdb_rating` is checked as `-imdb_rating` and rejected |
| Documents.ToFilm | src/serializers/films/elastic.py:6-7 | a film is built exactly when all eight film fields are present in the source, and it carries the stored id and reference lists |
| Documents.ToFilmBrief | src/serializers/genre/elastic.py:9-10 | a short film record is built exactly when id, title and rating are present, and it holds those values |
| Documents.ToGenre | src/serializers/genre/elastic.py:6-7 | a genre is built exactly when id and name are present, and it holds them |
| Documents.ToPerson | src/serializers/person/elastic.py:6-7 | a person is built exactly when id and name are present, and it holds them |
| Documents.FilmProjectionInverts | src/models/film.py:19-27 | the movie document stored for a film projects back to that film and to its short record, and not to a genre or a person |
| QueryDsl.MustOfOne | src/repositories/film/elastic.py:92 | a one-clause `bool.must` selects exactly what its clause selects |
| QueryDsl.Select | src/repositories/film/elastic.py:19-28 | each selected hit occurs as often as stored and an unselected one not at all; no more hits than stored |
| QueryDsl.SelectConcat | src/repositories/film/elastic.py:19-28 | selection distributes over concatenation, so the selected hits keep the stored order |
| QueryDsl.SelectOne | src/repositories/film/elastic.py:19-28 | a single hit is kept exactly when the body selects it |
| QueryDsl.SelectEverything | src/repositories/film/elastic.py:19-28 | a body every stored hit satisfies selects the whole list |
| QueryDsl.SelectSameSelection | src/repositories/film/elastic.py:19-28 | two bodies that agree on every stored document select the same hits |
| QueryDsl.Window | src/repositories/film/elastic.py:56-59 | the `from`/`size` window is the slice starting at `from`, never longer than `size`, empty past the end, and drawn from the hits |
| SearchEngine.Execute | src/repositories/film/elastic.py:19-28 | a search answer is returned unchanged; `NotFoundError` becomes `[]`; any other failure propagates |
| SearchEngine.Fetch | src/repositories/film/elastic.py:45-53 | a get answer is the document; `NotFoundError` becomes `None`; any other failure propagates |
| SearchEngine.FindById | src/repositories/genre/elastic.py:32-40 | a stored document with the id is found exactly when one exists |
| SearchEngine.ReferenceSearch | src/repositories/film/elastic.py:20-23 | a search on an existing index returns the window of the selected hits; a missing index raises `NotFoundError` |
| SearchEngine.ReferenceGet | src/repositories/film/elastic.py:48-51 | a get succeeds exactly for a stored id in an existing index; otherwise it raises `NotFoundError` |
| FilmRepository.ListQuery | src/repositories/film/elastic.py:94-108 | the list query is `{}` exactly when the genre is absent or empty; otherwise it is `bool.must` with one nested `term` on `genres.id`; it never holds an empty `bool` |
| FilmRepository.ListQueryBody | src/repositories/film/elastic.py:55-67 | size and from are limit and offset; a `query` key exactly for a filled genre; a one-element `sort` exactly when sort is given |
| FilmRepository.SearchQuery | src/repositories/film/elastic.py:80-92 | the search query is `{}` exactly for an absent or empty query; otherwise it is `bool.must` with one `multi_match` carrying the text and fuzziness `AUTO` |
| FilmRepository.SearchQueryBody | src/repositories/film/elastic.py:69-78 | size and from are limit and offset; a `query` key exactly for a filled query string; no sort |
| FilmRepository.All | src/repositories/film/elastic.py:15-28 | the list body is sent to the movies index, and the answer is mapped as a search answer |
| FilmRepository.Search | src/repositories/film/elastic.py:30-43 | the search body is sent to the movies index, and the answer is mapped as a search answer |
| FilmRepository.GetById | src/repositories/film/elastic.py:45-53 | the id is looked up in the movies index, and the answer is mapped as a get answer |
| FilmRepository.ListBodySelects | src/repositories/film/elastic.py:98-106 | the list body selects exactly the films carrying the genre, and every film without a genre |
| FilmRepository.SearchBodySelects | src/repositories/film/elastic.py:84-92 | the search body selects what the text match accepts, and every film without a query string |
| FilmRepository.AllOverStoredMovies | src/repositories/film/elastic.py:15-28 | over stored movies a list request succeeds with at most `limit` stored films, all of the requested genre; a missing index gives `[]` |
| FilmRepository.LastPartialPageExample | src/repositories/film/elastic.py:55-67 | over 30 films of one genre, size 8 and offset 24 return the last six |
| PersonRepository.PersonRoleSearchQuery | src/repositories/person/elastic.py:100-110 | three clauses in the order actors, directors, writers; each is nested on the role and matches `<role>.id` |
| PersonRepository.AllBody | src/repositories/person/elastic.py:18-21 | size and from are limit and offset, with no query and no sort, so every stored person is selected |
| PersonRepository.SearchBody | src/repositories/person/elastic.py:35-41 | size and from are limit and offset; a `query` key exactly for a filled query string, holding one fuzzy (`AUTO`) `multi_match` of the verbatim text under `bool.must` |
| PersonRepository.FilmsBody | src/repositories/person/elastic.py:65-75 | size and from are limit and offset, and the role query selects a film exactly when the person is an actor, director or writer on it |
| PersonRepository.All | src/repositories/person/elastic.py:16-31 | the body is sent to the persons index, and the answer is mapped as a search answer |
| PersonRepository.Search | src/repositories/person/elastic.py:33-51 | the search body is sent to the persons index, and the answer is mapped as a search answer |
| PersonRepository.GetById | src/repositories/person/elastic.py:53-61 | the id is looked up in the persons index, and the answer is mapped as a get answer |
| PersonRepository.GetFilms | src/repositories/person/elastic.py:63-85 | the role query goes to the movies index, not the persons index, and the answer is mapped as a search answer |
| PersonRepository.RoleClauseSelects | src/repositories/person/elastic.py:100-110 | a role clause selects a film exactly when the person's id is in that role's array |
| PersonRepository.SearchBodySelects | src/repositories/person/elastic.py:40-41 | the search body selects what the text match accepts, and everyone without a query string |
| PersonRepository.GetFilmsOverStoredMovies | src/repositories/person/elastic.py:63-85 | over stored movies the lookup returns the window of the films the person holds a role on, each as often as stored |
| GenreRepository.AllBody | src/repositories/genre/elastic.py:17-20 | size and from are limit and offset, with no query and no sort, so every stored genre is selected |
| GenreRepository.FilmsQuery | src/repositories/genre/elastic.py:44-49 | the nested query on `genres` has no empty `bool`, and it holds of a movie exactly when one of its genre entries carries the id |
| GenreRepository.FilmsBody | src/repositories/genre/elastic.py:51-55 | size and from are limit and offset, and the body selects exactly the movies that carry the genre |
| GenreRepository.All | src/repositories/genre/elastic.py:15-30 | the body is sent to the genres index, and the answer is mapped as a search answer |
| GenreRepository.GetById | src/repositories/genre/elastic.py:32-40 | the id is looked up in the genres index, and the answer is mapped as a get answer |
| GenreRepository.GetFilms | src/repositories/genre/elastic.py:42-65 | the genre query goes to the movies index, not the genres index, and the answer is mapped as a search answer |
| GenreRepository.GetFilmsOverStoredMovies | src/repositories/genre/elastic.py:42-65 | over stored movies the lookup returns the window of the genre's films, each as often as stored |
| GenreRepository.ListFilterAgreesWithReverseLookup | src/repositories/genre/elastic.py:44-49 | the film list filtered by a genre and the genre's reverse lookup select the same movies in the same order |
| Services.MapAll | src/services/film.py:14-15 | one entity per hit, in order, when every hit projects; otherwise a validation error at the first hit that does not |
| Services.ServeList | src/services/film.py:11-17 | an empty answer gives `[]`; a non-empty one is projected in order; an engine failure propagates |
| Services.ServeOne | src/services/film.py:27-33 | `None` exactly when the repository found nothing; otherwise the projected entity |
| Services.ServeReverseLookup | src/services/genre.py:28-37 | an absent parent fails with the not-found error after one lookup; an existing parent's films are served in order after exactly two calls, get-by-id then get-films |
| FilmService.All | src/services/film.py:11-17 | the film list served from the repository's list answer |
| FilmService.Search | src/services/film.py:19-25 | the film search served from the repository's search answer |
| FilmService.GetById | src/services/film.py:27-33 | `None` exactly when the repository returned `None` |
| FilmService.AllOverStoredMovies | src/services/film.py:11-17 | over stored, complete movies the list succeeds with at most `limit` films, each a stored film of the requested genre |
| GenreService.All | src/services/genre.py:13-19 | the genre list served from the repository's answer |
| GenreService.GetById | src/services/genre.py:21-26 | `None` exactly when the repository returned `None` |
| GenreService.GetFilmsByGenre | src/services/genre.py:28-37 | the reverse-lookup rule with `GenreNotFound` |
| GenreService.ParentAbsentVersusNoFilms | src/services/genre.py:28-37 | over stored indices an unknown genre is `GenreNotFound` without fetching films, while a known genre no film carries gives `[]` |
| PersonService.All | src/services/person.py:14-20 | the person list served from the repository's answer |
| PersonService.Search | src/services/person.py:22-28 | the person search served from the repository's answer |
| PersonService.GetById | src/services/person.py:30-36 | `None` exactly when the repository returned `None` |
| PersonService.GetFilmsByPerson | src/services/person.py:38-47 | the reverse-lookup rule with `PersonNotFound` |
| PersonService.ParentAbsentVersusNoFilms | src/services/person.py:38-47 | over stored indices an unknown person is `PersonNotFound` without fetching films, while a known person with no role gives `[]` |
| JsonSerializer.EncodeAll | src/cache/serializers/json.py:10-11 | one item text per item, in order |
| JsonSerializer.DecodeAll | src/cache/serializers/json.py:16-17 | succeeds exactly when every element parses, giving one model per element in order |
| JsonSerializer.Serialize | src/cache/serializers/json.py:9-12 | a list becomes an array of the items' texts in order; a single model becomes its own text |
| JsonSerializer.Deserialize | src/cache/serializers/json.py:14-18 | the payload's own shape decides: an array gives a list parsed element-wise, anything else one parsed model |
| JsonSerializer.DecodeEncodeAll | src/cache/serializers/json.py:10-17 | the item round trip lifts to lists, the empty list included |
| JsonSerializer.RoundTrip | src/cache/serializers/json.py:9-18 | deserializing a serialized list or model gives it back, and `[]` comes back as the empty list |
| JsonSerializer.SerializedNonEmpty | src/cache/serializers/json.py:12 | a serialized value is never the empty text, and a single model's text is an object, never array text |
| RedisCache.CacheKey | src/cache/managers/redis.py:29 | the key is the prefix, one `:`, then the URL |
| RedisCache.Get | src/cache/managers/redis.py:15-16 | the stored payload, or `None` for an absent key |
| RedisCache.Set | src/cache/managers/redis.py:18-19 | the serialized value and its expiry are written under the key, and no other key changes |
| RedisCache.Cache | src/cache/managers/redis.py:21-38 | a missing request fails before any read or call; a truthy hit answers from the store without calling the operation; a miss calls it once and stores its result only when it succeeds |
| RedisCache.SecondCallHits | src/cache/managers/redis.py:29-36 | after a successful call, the same call runs no operation, returns an equal result and leaves the store as it was |
| RedisCache.HitIgnoresProducer | src/cache/managers/redis.py:30-32 | on a hit the wrapped operation has no influence on the step |
| RedisCache.MissOnEmptyStore | src/cache/managers/redis.py:29-36 | a successful miss on an empty store leaves exactly the request's key, holding the serialized result and expiry |
| RedisCache.DefaultExpiryIsFiveMinutes | src/cache/managers/redis.py:21 | without an explicit `expire`, a successful miss stores its result with an expiry of 300 seconds |
| RedisCache.OtherKeysUntouched | src/cache/managers/redis.py:29-36 | every call leaves every other key as it was |
| RedisCache.DistinctUrlsDistinctKeys | src/cache/managers/redis.py:29 | different URLs under one prefix give different keys |
| RedisCache.DistinctPrefixesDistinctKeys | src/cache/managers/redis.py:29 | keys under two different `:`-free prefixes never collide |
| RedisCache.RouteKeysSeparate | src/api/v1/films.py:19 | the ten route prefixes never share a cache key |
| EtlClient.GenerateActions | etl/client.py:34-42 | one `index` action per item, in order, on the given index, with the item's `id` and the item itself; the first item without an `id` ends generation with a key error |
| EtlClient.CreateIndex | etl/client.py:16-24 | an existing index is left unchanged and not created again; a missing one is created with the schema; no other index changes |
| EtlClient.CreateIndexIdempotent | etl/client.py:19-21 | a second creation of the same name creates and changes nothing, whatever schema it is given |

## Left out

- The FastAPI routers, dependency injection and `HTTPException` mapping are not
  modelled. Only the cache prefixes the routers pass (`RedisCache.RoutePrefixes`)
  are kept.
- Process and connection wiring is not modelled: `main.py`, configuration,
  `cache_manager.py` and the `lru_cache` service factories.
- `load_data` and `async_bulk` are network I/O and are not modelled. The bulk
  load is represented by the actions it is given.
- Logging is not modelled: `print(e)` in the film repository and `logger.info`
  in the loader.
- JSON text encoding, pydantic `.json()` and `parse_raw` are abstracted as an
  item codec whose round trip is a requirement (`JsonSerializer.Lawful`). The
  payload is kept as its top-level JSON value, not as bytes.
- pydantic's UUID and float validation of entity fields is not modelled.
  Presence of every declared field is what decides whether an entity is built.
- `imdb_rating` is kept as its text. Nothing is computed on it.
- Relevance, fuzziness, scoring and sort order are Elasticsearch internals and
  are not modelled:
  - hits keep stored order;
  - the `sort` key is built but not applied;
  - `GenreRepository.GetFilms` sends no sort at all, although the route's
    docstring (src/api/v1/genres.py:83) speaks of the genre's highest-rated
    films; the model follows the body as sent;
  - `multi_match` is decided by the caller-supplied predicate.
- `term` and `match` are both read as exact id equality.
- Elasticsearch's own limits (such as the maximum `from + size`) are not
  modelled. An engine can report them as a transport error, which propagates.
- Cache expiry timing and concurrent cache races are not modelled. The expiry is
  stored as data and never elapses.
- Redis connection errors are not modelled. The store is a total map.
- RedisCache.Cache: the stored payload is the serializer's top-level value, not
  text. A stored text that is not valid JSON therefore cannot be represented.
  Such a text would make `json.loads` raise.
- Pagination.MakePaginationParams: states the bounds `limit > 0` and
  `offset >= 0` (declared through `Query(alias='page_size', gt=0)` and
  `Query(alias='page_number', ge=0)`) as enforced. Whether pydantic enforces a `Query(...)`
  constraint nested as a `Field` default is library behaviour that is not
  modelled. Every record the pagination dependency builds meets the bounds
  anyway (`Pagination.GetPaginationParams`).
- JsonSerializer.RoundTrip: the round trip relies on a model's text being a JSON
  object (`JsonSerializer.Lawful`). A single-model payload's text is not
  re-parsed to find its top-level shape, so a stored `JDoc` whose text is array
  text (which `json.loads` would read as a list) is not modelled.
- The abstract base classes under `src/repositories/*/base.py`,
  `src/serializers/*/base.py` and `src/cache/*/base.py` are interfaces only.
  Their one implementation is modelled directly.
