/** src/cache/managers/redis.py: the read-through cache wrapper as a state
    transformer over the key/value store. Redis itself becomes a map from
    keys to stored entries; expiry is recorded as data and never elapses. */
module RedisCache {
  import opened Outcomes
  import opened JsonSerializer

  /** A stored value and the expiry (in seconds) it was written with. */
  datatype Entry = Entry(payload: Payload, expire: int)

  type Store = map<string, Entry>

  /** The default `expire` of the wrapper: five minutes. */
  const DefaultExpire: int := 60 * 5

  /** The `request` keyword argument; only its URL is used. */
  datatype Request = Request(url: string)

  /** Why a wrapped call fails: no request given, a stored payload that does
      not parse, or the wrapped operation's own failure. */
  datatype CacheError<E> = MissingRequest | Undecodable | ProducerFailed(cause: E)

  /** One wrapped call: its result, the store after it, and how many times
      it invoked the wrapped operation. */
  datatype Step<T, E> = Step(result: Result<Cached<T>, CacheError<E>>, store: Store, producerCalls: nat)

  /** `f"{cache_key_prefix}:{request.url}"`. */
  function CacheKey(prefix: string, url: string): (k: string)
    ensures |k| == |prefix| + 1 + |url|
    ensures k[..|prefix|] == prefix && k[|prefix|] == ':' && k[|prefix| + 1..] == url
  {
    prefix + ":" + url
  }

  /** `redis.get(key)`: `None` for an absent key. */
  function Get(store: Store, key: string): (r: Option<Payload>)
    ensures r.Some? <==> key in store
    ensures r.Some? ==> r.value == store[key].payload
  {
    if key in store then Some(store[key].payload) else None
  }

  /** `set`: writes the serialized value under the key with the expiry and
      touches no other key. */
  function Set<T>(c: ItemCodec<T>, store: Store, key: string, value: Cached<T>, expire: int): (s: Store)
    ensures s.Keys == store.Keys + {key}
    ensures s[key] == Entry(Serialize(c, value), expire)
    ensures forall k :: k in store && k != key ==> s[k] == store[k]
  {
    store[key := Entry(Serialize(c, value), expire)]
  }

  /** Python truthiness of what `get` returned: absence and the empty byte
      string are falsy, every other payload is truthy. */
  predicate Truthy(p: Option<Payload>) {
    p.Some? && !(p.value.JDoc? && p.value.text == "")
  }

  /** The wrapped call: fail fast without a request; on a truthy stored
      payload, answer from the store without running the operation; on a
      miss, run the operation once and, if it succeeds, store and return its
      result. */
  function Cache<T, E>(c: ItemCodec<T>, prefix: string, expire: int := DefaultExpire, request: Option<Request>, store: Store,
                       producer: () -> Result<Cached<T>, E>): (r: Step<T, E>)
    ensures request.None? ==> r == Step(Err(MissingRequest), store, 0)
    ensures request.Some? ==>
      var key := CacheKey(prefix, request.value.url);
      && (Truthy(Get(store, key)) ==>
            && r.producerCalls == 0 && r.store == store
            && r.result == match Deserialize(c, store[key].payload)
                           case Some(v) => Ok(v)
                           case None => Err(Undecodable))
      && (!Truthy(Get(store, key)) ==>
            && r.producerCalls == 1
            && (producer().Err? ==> r.result == Err(ProducerFailed(producer().error)) && r.store == store)
            && (producer().Ok? ==> r.result == Ok(producer().value) && r.store == Set(c, store, key, producer().value, expire)))
  {
    match request
    case None => Step(Err(MissingRequest), store, 0)
    case Some(req) =>
      var key := CacheKey(prefix, req.url);
      var cached := Get(store, key);
      if Truthy(cached) then
        match Deserialize(c, cached.value)
        case Some(v) => Step(Ok(v), store, 0)
        case None => Step(Err(Undecodable), store, 0)
      else
        match producer()
        case Err(e) => Step(Err(ProducerFailed(e)), store, 1)
        case Ok(v) => Step(Ok(v), Set(c, store, key, v, expire), 1)
  }

  /** A successful call makes the same call a hit: the second call does not
      run the operation (whatever it would do now), returns an equal result
      and leaves the store as it was. */
  lemma SecondCallHits<T(!new), E>(c: ItemCodec<T>, prefix: string, expire: int, req: Request, store: Store,
                                   producer: () -> Result<Cached<T>, E>, producer2: () -> Result<Cached<T>, E>)
    requires Lawful(c)
    requires Cache(c, prefix, expire, Some(req), store, producer).result.Ok?
    ensures var first := Cache(c, prefix, expire, Some(req), store, producer);
            var second := Cache(c, prefix, expire, Some(req), first.store, producer2);
      && second.producerCalls == 0
      && second.result == first.result
      && second.store == first.store
  {
    var first := Cache(c, prefix, expire, Some(req), store, producer);
    var key := CacheKey(prefix, req.url);
    if !Truthy(Get(store, key)) {
      var v := producer().value;
      RoundTrip(c, v);
      SerializedNonEmpty(c, v);
      assert first.store[key].payload == Serialize(c, v);
    } else {
      assert Deserialize(c, store[key].payload).Some?;
    }
  }

  /** On a hit the operation is irrelevant: any two operations give the same
      step. */
  lemma HitIgnoresProducer<T, E>(c: ItemCodec<T>, prefix: string, expire: int, req: Request, store: Store,
                                 producer: () -> Result<Cached<T>, E>, producer2: () -> Result<Cached<T>, E>)
    requires Truthy(Get(store, CacheKey(prefix, req.url)))
    ensures Cache(c, prefix, expire, Some(req), store, producer) == Cache(c, prefix, expire, Some(req), store, producer2)
  {
  }

  /** A successful miss on an empty store leaves exactly one key, the
      request's, holding the serialized result with the given expiry. */
  lemma MissOnEmptyStore<T, E>(c: ItemCodec<T>, prefix: string, expire: int, req: Request,
                               producer: () -> Result<Cached<T>, E>)
    requires producer().Ok?
    ensures var r := Cache(c, prefix, expire, Some(req), map[], producer);
      && r.producerCalls == 1
      && r.store.Keys == {CacheKey(prefix, req.url)}
      && r.store[CacheKey(prefix, req.url)] == Entry(Serialize(c, producer().value), expire)
  {
  }

  /** Without an explicit `expire`, a successful miss stores its result
      for five minutes. */
  lemma DefaultExpiryIsFiveMinutes<T, E>(c: ItemCodec<T>, prefix: string, req: Request, store: Store,
                                         producer: () -> Result<Cached<T>, E>)
    requires !Truthy(Get(store, CacheKey(prefix, req.url))) && producer().Ok?
    ensures Cache(c, prefix, request := Some(req), store := store, producer := producer)
              .store[CacheKey(prefix, req.url)].expire == 300
  {
  }

  /** Every call leaves every other key as it was. */
  lemma OtherKeysUntouched<T, E>(c: ItemCodec<T>, prefix: string, expire: int, req: Request, store: Store,
                                 producer: () -> Result<Cached<T>, E>, k: string)
    requires k != CacheKey(prefix, req.url)
    ensures var r := Cache(c, prefix, expire, Some(req), store, producer);
      (k in r.store <==> k in store) && (k in store ==> r.store[k] == store[k])
  {
  }

  /** Two requests that differ in their URL under one prefix have different
      keys, so they are cached independently. */
  lemma DistinctUrlsDistinctKeys(prefix: string, url1: string, url2: string)
    requires url1 != url2
    ensures CacheKey(prefix, url1) != CacheKey(prefix, url2)
  {
  }

  /** Keys under two different ':'-free prefixes never collide, whatever
      the URLs. */
  lemma DistinctPrefixesDistinctKeys(p1: string, p2: string, url1: string, url2: string)
    requires p1 != p2 && ':' !in p1 && ':' !in p2
    ensures CacheKey(p1, url1) != CacheKey(p2, url2)
  {
  }

  /** The prefixes the API routes pass to the wrapper. */
  const RoutePrefixes: seq<string> := [
    "films_all", "films_search", "film",
    "genres_all", "genre", "films_by_genre",
    "person_all", "person_search", "person", "films_by_person"
  ]

  /** No two routes share cache entries: the route prefixes are distinct and
      ':'-free, so their keys never collide. */
  lemma RouteKeysSeparate(i: nat, j: nat, url1: string, url2: string)
    requires i < |RoutePrefixes| && j < |RoutePrefixes| && i != j
    ensures CacheKey(RoutePrefixes[i], url1) != CacheKey(RoutePrefixes[j], url2)
  {
    var p1, p2 := RoutePrefixes[i], RoutePrefixes[j];
    assert ':' !in p1 && ':' !in p2;
    assert p1 != p2;
    DistinctPrefixesDistinctKeys(p1, p2, url1, url2);
  }
}
