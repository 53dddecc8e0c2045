/** Page size and page number to the `limit`/`offset` pair
    (src/dependencies/base.py) and the `BasePaginationParams` record with
    its constraints (src/models/base.py). Python integers are unbounded, so
    no wrap-around is involved. */
module Pagination {
  import opened Outcomes

  /** The query parameters' defaults, `page_size=12` and `page_number=1`. */
  const DefaultPageSize: int := 12
  const DefaultPageNumber: int := 1

  datatype PaginationParams = PaginationParams(limit: int, offset: int)

  /** The pydantic constraints `limit > 0` and `offset >= 0`. */
  predicate Valid(p: PaginationParams) {
    p.limit > 0 && p.offset >= 0
  }

  /** A pydantic validation failure, listing every field that failed. */
  datatype ValidationError = ValidationError(fields: seq<string>)

  /** Constructing `BasePaginationParams(limit=..., offset=...)`. */
  function MakePaginationParams(limit: int, offset: int): (r: Result<PaginationParams, ValidationError>)
    ensures r.Ok? <==> Valid(PaginationParams(limit, offset))
    ensures r.Ok? ==> r.value == PaginationParams(limit, offset)
    ensures r.Err? ==> ("limit" in r.error.fields <==> limit <= 0)
    ensures r.Err? ==> ("offset" in r.error.fields <==> offset < 0)
  {
    var bad := (if limit <= 0 then ["limit"] else []) + (if offset < 0 then ["offset"] else []);
    if bad == [] then Ok(PaginationParams(limit, offset)) else Err(ValidationError(bad))
  }

  lemma MulAtLeast(d: int, n: int)
    requires n > 0 && d >= 1
    ensures d * n >= n
  {
  }

  /** Euclidean division is determined by a quotient and an in-range remainder. */
  lemma DivModUnique(x: int, n: int, q: int, r: int)
    requires n > 0 && 0 <= r < n && x == q * n + r
    ensures x / n == q && x % n == r
  {
    var q0, r0 := x / n, x % n;
    assert x == q0 * n + r0;
    assert (q - q0) * n == q * n - q0 * n;
    assert (q0 - q) * n == q0 * n - q * n;
    if q > q0 { MulAtLeast(q - q0, n); assert false; }
    if q < q0 { MulAtLeast(q0 - q, n); assert false; }
  }

  /** `get_pagination_params`: a non-positive page size falls back to the
      default, and a page number below 2 means the first page. The result
      always satisfies the record's constraints, so building it never
      raises, and the page number is recovered from the offset. */
  function GetPaginationParams(pageSize: int, pageNumber: int): (p: PaginationParams)
    ensures Valid(p) && MakePaginationParams(p.limit, p.offset) == Ok(p)
    ensures pageSize > 0 ==> p.limit == pageSize
    ensures pageSize <= 0 ==> p.limit == DefaultPageSize
    ensures p.offset % p.limit == 0
    ensures pageNumber >= 1 ==> p.offset / p.limit + 1 == pageNumber
    ensures pageNumber <= 1 ==> p.offset == 0
  {
    var limit := if pageSize > 0 then pageSize else DefaultPageSize;
    var offset := if pageNumber > 1 then (pageNumber - 1) * limit else 0;
    DivModUnique(offset, limit, if pageNumber > 1 then pageNumber - 1 else 0, 0);
    PaginationParams(limit, offset)
  }

  /** Page n + 1 starts exactly where page n ends. */
  lemma ConsecutivePagesAdjacent(pageSize: int, n: int)
    requires n >= 1
    ensures GetPaginationParams(pageSize, n + 1).limit == GetPaginationParams(pageSize, n).limit
    ensures GetPaginationParams(pageSize, n + 1).offset
         == GetPaginationParams(pageSize, n).offset + GetPaginationParams(pageSize, n).limit
  {
  }

  /** The windows of two different pages (both at least 1) do not overlap:
      the earlier page ends at or before the later one starts. */
  lemma {:induction false} DistinctPagesDisjoint(pageSize: int, n: int, m: int)
    requires 1 <= n < m
    ensures GetPaginationParams(pageSize, n).offset + GetPaginationParams(pageSize, n).limit
         <= GetPaginationParams(pageSize, m).offset
    decreases m - n
  {
    ConsecutivePagesAdjacent(pageSize, m - 1);
    if n < m - 1 {
      DistinctPagesDisjoint(pageSize, n, m - 1);
    }
  }

  /** The defaults give the first twelve results; `page_size=8,
      page_number=4` gives the window starting at 24. */
  lemma Examples()
    ensures GetPaginationParams(DefaultPageSize, DefaultPageNumber) == PaginationParams(12, 0)
    ensures GetPaginationParams(8, 4) == PaginationParams(8, 24)
    ensures GetPaginationParams(0, 0) == PaginationParams(12, 0)
    ensures GetPaginationParams(-5, -3) == PaginationParams(12, 0)
  {
  }
}
