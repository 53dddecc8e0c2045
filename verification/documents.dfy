/** Stored search-engine documents and the domain entities projected from
    them (src/models/film.py, genre.py, person.py and the one-line
    serializers under src/serializers/).

    A document's `_source` is a field bag: every field may be missing.
    Building a pydantic model from it (`Film(**data['_source'])`) succeeds
    exactly when every field the model declares is present; fields the
    model does not declare are ignored. */
module Documents {
  import opened Outcomes

  /** `imdb_rating` is a float in the source; the model never computes on
      it, so it is kept as its decimal text. */
  datatype Rating = Rating(text: string)

  /** A nested `{id, name}` reference to a genre or a person. */
  datatype Ref = Ref(id: string, name: string)

  /** The `_source` of a hit: the union of the fields the three indices
      store, each of which may be absent. */
  datatype Doc = Doc(
    id: Option<string>,
    title: Option<string>,
    description: Option<string>,
    imdbRating: Option<Rating>,
    name: Option<string>,
    genres: Option<seq<Ref>>,
    actors: Option<seq<Ref>>,
    writers: Option<seq<Ref>>,
    directors: Option<seq<Ref>>)

  /** One search hit (or one get-by-id response): document id and source. */
  datatype Hit = Hit(id: string, source: Doc)

  /** src/models/film.py `Film`. */
  datatype Film = Film(
    id: string,
    title: string,
    description: string,
    imdbRating: Rating,
    genres: seq<Ref>,
    actors: seq<Ref>,
    writers: seq<Ref>,
    directors: seq<Ref>)

  /** The short film record of src/models/genre.py and src/models/person.py. */
  datatype FilmBrief = FilmBrief(id: string, title: string, imdbRating: Rating)

  datatype Genre = Genre(id: string, name: string)

  datatype Person = Person(id: string, name: string)

  /** `Film(**data['_source'])`. */
  function ToFilm(h: Hit): (r: Option<Film>)
    ensures r.Some? <==>
      && h.source.id.Some? && h.source.title.Some? && h.source.description.Some?
      && h.source.imdbRating.Some? && h.source.genres.Some? && h.source.actors.Some?
      && h.source.writers.Some? && h.source.directors.Some?
    ensures r.Some? ==> r.value == Film(h.source.id.value, h.source.title.value, h.source.description.value,
                                        h.source.imdbRating.value, h.source.genres.value, h.source.actors.value,
                                        h.source.writers.value, h.source.directors.value)
  {
    var s := h.source;
    if s.id.Some? && s.title.Some? && s.description.Some? && s.imdbRating.Some?
       && s.genres.Some? && s.actors.Some? && s.writers.Some? && s.directors.Some?
    then Some(Film(s.id.value, s.title.value, s.description.value, s.imdbRating.value,
                   s.genres.value, s.actors.value, s.writers.value, s.directors.value))
    else None
  }

  /** `Film(**data['_source'])` for the short film record. */
  function ToFilmBrief(h: Hit): (r: Option<FilmBrief>)
    ensures r.Some? <==> h.source.id.Some? && h.source.title.Some? && h.source.imdbRating.Some?
    ensures r.Some? ==> r.value == FilmBrief(h.source.id.value, h.source.title.value, h.source.imdbRating.value)
  {
    var s := h.source;
    if s.id.Some? && s.title.Some? && s.imdbRating.Some?
    then Some(FilmBrief(s.id.value, s.title.value, s.imdbRating.value))
    else None
  }

  /** `Genre(**data['_source'])`. */
  function ToGenre(h: Hit): (r: Option<Genre>)
    ensures r.Some? <==> h.source.id.Some? && h.source.name.Some?
    ensures r.Some? ==> r.value == Genre(h.source.id.value, h.source.name.value)
  {
    if h.source.id.Some? && h.source.name.Some?
    then Some(Genre(h.source.id.value, h.source.name.value))
    else None
  }

  /** `Person(**data['_source'])`. */
  function ToPerson(h: Hit): (r: Option<Person>)
    ensures r.Some? <==> h.source.id.Some? && h.source.name.Some?
    ensures r.Some? ==> r.value == Person(h.source.id.value, h.source.name.value)
  {
    if h.source.id.Some? && h.source.name.Some?
    then Some(Person(h.source.id.value, h.source.name.value))
    else None
  }

  /** The movie document the bulk loader stores for a film. */
  function FilmSource(f: Film): Doc {
    Doc(Some(f.id), Some(f.title), Some(f.description), Some(f.imdbRating), None,
        Some(f.genres), Some(f.actors), Some(f.writers), Some(f.directors))
  }

  /** A stored movie document projects back to the film it was made from,
      both as the full record and as the short record. */
  lemma FilmProjectionInverts(f: Film, hitId: string)
    ensures ToFilm(Hit(hitId, FilmSource(f))) == Some(f)
    ensures ToFilmBrief(Hit(hitId, FilmSource(f))) == Some(FilmBrief(f.id, f.title, f.imdbRating))
    ensures ToGenre(Hit(hitId, FilmSource(f))).None? && ToPerson(Hit(hitId, FilmSource(f))).None?
  {
  }
}
