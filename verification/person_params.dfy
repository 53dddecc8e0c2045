/** The person search record (src/models/person.py) and its assembly from
    query parameters (src/dependencies/person.py). */
module PersonParams {
  import opened Outcomes
  import opened Pagination

  /** `PersonSearchParams`: the pagination pair and an optional query string. */
  datatype PersonSearchParams = PersonSearchParams(limit: int, offset: int, query: Option<string>)

  /** `get_person_search_params`: a field copy. */
  function GetPersonSearchParams(pagination: PaginationParams, query: Option<string>): (r: PersonSearchParams)
    ensures r.limit == pagination.limit && r.offset == pagination.offset && r.query == query
  {
    PersonSearchParams(pagination.limit, pagination.offset, query)
  }
}
