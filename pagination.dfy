/**
 * The offset-pagination helper of the root service (src/utils/pagination.js).
 *
 * `paginate` clamps the requested page and page size, runs a counting form
 * of the caller's query and then the query itself with a LIMIT/OFFSET window,
 * and assembles the page metadata. The two awaited database calls are the
 * parameters `count` and `fetch`: the model applies each to exactly the
 * query text and bound values the source sends.
 */
module Pagination {
  import opened Wrappers
  import opened Numbers

  /** A value bound to a `?` placeholder of a prepared statement. */
  datatype SqlValue = SqlInt(i: int) | SqlText(t: string) | SqlNull

  /** A parameterised query: its text and the values bound to its placeholders, in order. */
  datatype Query = Query(text: string, params: seq<SqlValue>)

  /** A failure reported by the database driver (its error code and message). */
  datatype DbError = DbError(code: string, message: string)

  /** The outcome of one awaited database call: its result, or the error it threw. */
  datatype Fetch<+T> = Done(value: T) | Raised(error: DbError)

  /** `req.query` after `parseInt`: `None` stands for a missing or non-numeric value (NaN). */
  datatype PageRequest = PageRequest(page: Option<int>, limit: Option<int>)

  datatype PageMeta = PageMeta(page: int, limit: int, total: nat, totalPages: int, hasNext: bool, hasPrev: bool)

  datatype Page<Row> = Page(data: seq<Row>, pagination: PageMeta)

  const MaxLimit := 100
  const DefaultLimit := 10
  const CountPrefix := "SELECT COUNT(*) as total FROM ("
  const CountSuffix := ") as countTable"
  const WindowSuffix := " LIMIT ? OFFSET ?"

  /** `parseInt(x) || d`: NaN and 0 are both falsy, so both give the default. */
  function OrDefault(parsed: Option<int>, d: int): int {
    if parsed.None? || parsed.value == 0 then d else parsed.value
  }

  /** `Math.max(1, parseInt(query.page) || 1)`. */
  function ClampPage(parsed: Option<int>): (page: int)
    ensures page >= 1
    ensures page == (if parsed.Some? && parsed.value >= 1 then parsed.value else 1)
  {
    Max(1, OrDefault(parsed, 1))
  }

  /** `Math.min(100, Math.max(1, parseInt(query.limit) || 10))`. */
  function ClampLimit(parsed: Option<int>): (limit: int)
    ensures 1 <= limit <= MaxLimit
    ensures parsed.None? || parsed.value == 0 ==> limit == DefaultLimit
    ensures parsed.Some? && parsed.value < 0 ==> limit == 1
    ensures parsed.Some? && parsed.value > MaxLimit ==> limit == MaxLimit
    ensures parsed.Some? && 1 <= parsed.value <= MaxLimit ==> limit == parsed.value
  {
    Min(MaxLimit, Max(1, OrDefault(parsed, DefaultLimit)))
  }

  /** `(page - 1) * limit`: the number of rows on the pages before `page`. */
  function Offset(page: int, limit: int): (offset: int)
    requires page >= 1 && limit >= 1
    ensures offset >= 0 && offset % limit == 0 && offset / limit == page - 1
  {
    OffsetDivides(page - 1, limit);
    (page - 1) * limit
  }

  lemma OffsetDivides(k: nat, limit: int)
    requires limit >= 1
    ensures k * limit >= 0 && (k * limit) % limit == 0 && (k * limit) / limit == k
  {
    var q, r := (k * limit) / limit, (k * limit) % limit;
    assert (k - q) * limit == r by {
      assert k * limit == q * limit + r;
      assert (k - q) * limit == k * limit - q * limit;
    }
    if k - q >= 1 {
      MulMonotone(k - q, 1, limit);
    } else if k - q <= -1 {
      MulMonotone(-1, k - q, limit);
    }
  }

  lemma MulMonotone(a: int, b: int, c: int)
    requires a >= b && c >= 0
    ensures a * c >= b * c
  {
    assert a * c - b * c == (a - b) * c;
  }

  /** `Math.ceil(total / limit)` on integers. */
  function TotalPages(total: nat, limit: int): (pages: nat)
    requires limit >= 1
    ensures pages * limit >= total
    ensures pages == 0 || (pages - 1) * limit < total
  {
    CeilDivision(total, limit);
    (total + limit - 1) / limit
  }

  lemma CeilDivision(total: nat, limit: int)
    requires limit >= 1
    ensures var pages := (total + limit - 1) / limit;
      pages >= 0 && pages * limit >= total && (pages == 0 || (pages - 1) * limit < total)
  {
    var n := total + limit - 1;
    var q, r := n / limit, n % limit;
    assert n == q * limit + r && 0 <= r < limit;
    assert q * limit == n - r;
    assert (q - 1) * limit == n - r - limit;
  }

  /** The counting form of the caller's query, bound with the caller's values unchanged. */
  function CountQuery(baseQuery: string, params: seq<SqlValue>): Query {
    Query(CountPrefix + baseQuery + CountSuffix, params)
  }

  /** The caller's query with a LIMIT/OFFSET window; `limit` and `offset` are bound after the caller's values. */
  function WindowQuery(baseQuery: string, params: seq<SqlValue>, limit: int, offset: int): Query {
    Query(baseQuery + WindowSuffix, params + [SqlInt(limit), SqlInt(offset)])
  }

  /**
   * The invariants of page metadata: the clamps hold, `totalPages` is the
   * ceiling of `total / limit`, there is a next page exactly when rows
   * remain after this page's window, and a previous one exactly when this
   * is not the first page.
   */
  ghost predicate ConsistentMeta(m: PageMeta) {
    && m.page >= 1
    && 1 <= m.limit <= MaxLimit
    && m.totalPages >= 0
    && m.totalPages * m.limit >= m.total
    && (m.totalPages == 0 || (m.totalPages - 1) * m.limit < m.total)
    && (m.hasNext <==> m.page * m.limit < m.total)
    && (m.hasPrev <==> m.page > 1)
  }

  /** The metadata `paginate` reports for a clamped page, page size and row count. */
  function Meta(page: int, limit: int, total: nat): (m: PageMeta)
    requires page >= 1 && 1 <= limit <= MaxLimit
    ensures m.page == page && m.limit == limit && m.total == total
    ensures ConsistentMeta(m)
  {
    var totalPages := TotalPages(total, limit);
    HasNextMeansRowsRemain(page, limit, total, totalPages);
    PageMeta(page, limit, total, totalPages, page < totalPages, page > 1)
  }

  /** `page < ceil(total / limit)` holds exactly when some row lies beyond the first `page * limit`. */
  lemma HasNextMeansRowsRemain(page: int, limit: int, total: nat, totalPages: nat)
    requires page >= 1 && limit >= 1
    requires totalPages * limit >= total
    requires totalPages == 0 || (totalPages - 1) * limit < total
    ensures page < totalPages <==> page * limit < total
  {
    if page < totalPages {
      MulMonotone(totalPages - 1, page, limit);
    } else {
      MulMonotone(page, totalPages, limit);
    }
  }

  /**
   * `paginate(db, baseQuery, query = {}, params = [])`: the count query runs
   * first and its failure propagates unchanged; then the windowed query runs
   * and its failure propagates unchanged; otherwise the rows are returned as
   * fetched, with consistent metadata built from the clamped request and
   * the count.
   */
  function Paginate<Row>(
    count: Query -> Fetch<nat>,
    fetch: Query -> Fetch<seq<Row>>,
    baseQuery: string,
    query: PageRequest := PageRequest(None, None),
    params: seq<SqlValue> := []
  ): (r: Fetch<Page<Row>>)
    ensures var counted := count(Query(CountPrefix + baseQuery + CountSuffix, params));
      counted.Raised? ==> r == Raised(counted.error)
    ensures var counted := count(Query(CountPrefix + baseQuery + CountSuffix, params));
      var page, limit := ClampPage(query.page), ClampLimit(query.limit);
      var fetched := fetch(Query(baseQuery + WindowSuffix, params + [SqlInt(limit), SqlInt((page - 1) * limit)]));
      counted.Done? ==>
        && (fetched.Raised? ==> r == Raised(fetched.error))
        && (fetched.Done? ==>
              && r.Done?
              && r.value.data == fetched.value
              && r.value.pagination.page == page
              && r.value.pagination.limit == limit
              && r.value.pagination.total == counted.value)
    ensures r.Done? ==> ConsistentMeta(r.value.pagination)
  {
    var page := ClampPage(query.page);
    var limit := ClampLimit(query.limit);
    var offset := Offset(page, limit);
    match count(CountQuery(baseQuery, params))
    case Raised(e) => Raised(e)
    case Done(total) =>
      match fetch(WindowQuery(baseQuery, params, limit, offset))
      case Raised(e) => Raised(e)
      case Done(data) => Done(Page(data, Meta(page, limit, total)))
  }

  /** No rows: no pages, no next page, and a previous page only past page 1. */
  lemma EmptyResultHasNoPages(page: int, limit: int)
    requires page >= 1 && 1 <= limit <= MaxLimit
    ensures Meta(page, limit, 0).totalPages == 0
    ensures !Meta(page, limit, 0).hasNext
    ensures Meta(page, limit, 0).hasPrev <==> page > 1
  {
  }

  /** A page past the last one never claims a next page. */
  lemma PastLastPageHasNoNext(m: PageMeta)
    requires ConsistentMeta(m) && m.page >= m.totalPages
    ensures !m.hasNext
  {
    MulMonotone(m.page, m.totalPages, m.limit);
  }

  /** 25 rows at 10 per page: three pages; page 1 has only a next, page 3 only a previous. */
  lemma TwentyFiveRowsInPagesOfTen()
    ensures Meta(1, 10, 25) == PageMeta(1, 10, 25, 3, true, false)
    ensures Meta(3, 10, 25) == PageMeta(3, 10, 25, 3, false, true)
  {
  }
}
