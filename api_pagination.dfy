/**
 * The pagination helper of the API service (monash-api/src/utils/pagination.js),
 * a second copy of the root service's helper written out on its own. Its
 * contract is that it agrees with `Pagination.Paginate` on every input, so
 * every property proved there holds of it too.
 */
module ApiPagination {
  import opened Wrappers
  import opened Pagination

  function Paginate<Row>(
    count: Query -> Fetch<nat>,
    fetch: Query -> Fetch<seq<Row>>,
    baseQuery: string,
    query: PageRequest := PageRequest(None, None),
    params: seq<SqlValue> := []
  ): (r: Fetch<Page<Row>>)
    ensures r == Pagination.Paginate(count, fetch, baseQuery, query, params)
    ensures r.Done? ==> ConsistentMeta(r.value.pagination)
  {
    var requestedPage := if query.page.None? || query.page.value == 0 then 1 else query.page.value;
    var page := if requestedPage < 1 then 1 else requestedPage;
    var requestedLimit := if query.limit.None? || query.limit.value == 0 then 10 else query.limit.value;
    var atLeastOne := if requestedLimit < 1 then 1 else requestedLimit;
    var limit := if atLeastOne > 100 then 100 else atLeastOne;
    var offset := (page - 1) * limit;
    match count(Query("SELECT COUNT(*) as total FROM (" + baseQuery + ") as countTable", params))
    case Raised(e) => Raised(e)
    case Done(total) =>
      match fetch(Query(baseQuery + " LIMIT ? OFFSET ?", params + [SqlInt(limit), SqlInt(offset)]))
      case Raised(e) => Raised(e)
      case Done(data) =>
        var totalPages := (total + limit - 1) / limit;
        Done(Page(data, PageMeta(page, limit, total, totalPages, page < totalPages, page > 1)))
  }
}
