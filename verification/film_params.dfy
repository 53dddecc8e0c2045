/** The film parameter records (src/models/film.py) and their assembly
    from query parameters (src/dependencies/film.py). */
module FilmParams {
  import opened Outcomes
  import opened Pagination
  import opened Sorting

  /** `FilmSortField`: the only sortable film field. */
  datatype FilmSortField = ImdbRating

  function FilmSortFieldValue(f: FilmSortField): string {
    match f
    case ImdbRating => "imdb_rating"
  }

  /** `FilmSortParams.get_fields_class()`. */
  function FilmSortFields(): EnumClass<FilmSortField> {
    EnumClass([ImdbRating], FilmSortFieldValue)
  }

  type FilmSortParams = SortParams<FilmSortField>

  /** `FilmSortParams.parse_sort_param`. */
  function ParseFilmSort(sort: string): Result<FilmSortParams, HttpError> {
    ParseSortParam(FilmSortFields(), sort)
  }

  /** The query parameter's default sort. */
  const DefaultFilmSort: string := "-imdb_rating"

  /** `FilmQueryParams`: the pagination pair, an optional sort and an
      optional genre id. */
  datatype FilmQueryParams = FilmQueryParams(
    limit: int, offset: int, sort: Option<FilmSortParams>, genre: Option<string>)

  /** `FilmSearchParams`: the pagination pair and an optional query string. */
  datatype FilmSearchParams = FilmSearchParams(limit: int, offset: int, query: Option<string>)

  /** `get_film_list_params`: a filled sort string is parsed and may reject
      the request; an absent or empty one means no sort. Pagination and the
      genre filter pass through unchanged. */
  function GetFilmListParams(pagination: PaginationParams, sort: Option<string>, genre: Option<string>)
    : (r: Result<FilmQueryParams, HttpError>)
    ensures r.Err? <==> Filled(sort) && ParseFilmSort(sort.value).Err?
    ensures r.Err? ==> r.error == ParseFilmSort(sort.value).error
    ensures r.Ok? ==> r.value.limit == pagination.limit && r.value.offset == pagination.offset
    ensures r.Ok? ==> r.value.genre == genre
    ensures r.Ok? ==> (r.value.sort.Some? <==> Filled(sort))
    ensures r.Ok? && Filled(sort) ==> r.value.sort == Some(ParseFilmSort(sort.value).value)
  {
    if Filled(sort) then
      match ParseFilmSort(sort.value)
      case Err(e) => Err(e)
      case Ok(parsed) => Ok(FilmQueryParams(pagination.limit, pagination.offset, Some(parsed), genre))
    else
      Ok(FilmQueryParams(pagination.limit, pagination.offset, None, genre))
  }

  /** `get_film_search_params`: a field copy. */
  function GetFilmSearchParams(pagination: PaginationParams, query: Option<string>): (r: FilmSearchParams)
    ensures r.limit == pagination.limit && r.offset == pagination.offset && r.query == query
  {
    FilmSearchParams(pagination.limit, pagination.offset, query)
  }

  /** The film allow-list is exactly `imdb_rating`, so a sort string parses
      exactly when it is `imdb_rating` or `-imdb_rating`, with the matching
      direction; everything else is a 400. */
  lemma FilmSortAllowList(sort: string)
    ensures GetValues(FilmSortFields()) == ["imdb_rating"]
    ensures ParseFilmSort(sort).Ok? <==> sort == "imdb_rating" || sort == "-imdb_rating"
    ensures sort == "imdb_rating" ==> ParseFilmSort(sort) == Ok(SortParams(ImdbRating, Asc))
    ensures sort == "-imdb_rating" ==> ParseFilmSort(sort) == Ok(SortParams(ImdbRating, Desc))
    ensures ParseFilmSort(sort).Err? ==> ParseFilmSort(sort).error.status == BadRequest
  {
  }

  /** With the default sort the list is ordered by rating, descending, and
      an empty sort string means no sort. */
  lemma DefaultFilmSortExample(pagination: PaginationParams, genre: Option<string>)
    ensures GetFilmListParams(pagination, Some(DefaultFilmSort), genre)
         == Ok(FilmQueryParams(pagination.limit, pagination.offset, Some(SortParams(ImdbRating, Desc)), genre))
    ensures GetFilmListParams(pagination, Some(""), genre)
         == Ok(FilmQueryParams(pagination.limit, pagination.offset, None, genre))
  {
    FilmSortAllowList(DefaultFilmSort);
  }

  /** A sort field outside the allow-list, such as `wrong field`, rejects
      the request and no parameter record is built. */
  lemma WrongFieldSortExample(pagination: PaginationParams, genre: Option<string>)
    ensures GetFilmListParams(pagination, Some("wrong field"), genre)
         == Err(HttpError(BadRequest, "Invalid sort field: wrong field"))
  {
    var r := ParseFilmSort("wrong field");
    assert StrippedName("wrong field") == "wrong field";
    assert "wrong field" !in GetValues(FilmSortFields()) by {
      assert GetValues(FilmSortFields()) == ["imdb_rating"];
    }
    assert "Invalid sort field: " + "wrong field" == "Invalid sort field: wrong field";
  }

  /** Only one leading `-` is stripped: `--imdb_rating` is checked as
      `-imdb_rating` and rejected. */
  lemma DoubleDashSortExample(pagination: PaginationParams, genre: Option<string>)
    ensures GetFilmListParams(pagination, Some("--imdb_rating"), genre)
         == Err(HttpError(BadRequest, "Invalid sort field: -imdb_rating"))
  {
    assert StrippedName("--imdb_rating") == "-imdb_rating";
    assert "-imdb_rating" !in GetValues(FilmSortFields()) by {
      assert GetValues(FilmSortFields()) == ["imdb_rating"];
    }
    assert "Invalid sort field: " + "-imdb_rating" == "Invalid sort field: -imdb_rating";
  }
}
