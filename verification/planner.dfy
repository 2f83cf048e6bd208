/**
 * The planning step of `Paginator.fetch_all_pages`: the first GET decides
 * whether the fetch fails, ends with the raw body, or goes on to fetch
 * `total_pages` pages with a resolved per-page value.
 */
module Planner {
  import opened Json
  import opened Protocol

  /** What the first response says about pagination. */
  datatype Metadata =
    | Failed(error: Error)
    | RawBody(body: Json)
    | Paginated(total: Json, perPage: Json)

  /** Reads the first response: a non-200 status is fatal; a body without a
      total count or without a per-page value (absent or null) is returned
      as it is; otherwise both values go on to the page count. */
  function ReadMetadata(reply: Reply, url: string, totalCountField: string, perPageField: string): (m: Metadata)
    ensures m.Failed? <==> reply.NetErr? || reply.status != 200 || !reply.body.JObj?
    ensures reply.NetErr? ==> m == Failed(NetworkError)
    ensures reply.Response? && reply.status != 200 ==> m == Failed(DataFetchFailed(reply.status, url))
    ensures reply.Response? && reply.status == 200 && !reply.body.JObj? ==> m == Failed(AttributeError)
    ensures m.RawBody? ==> m.body == reply.body
    ensures m.Paginated? ==>
              reply.body.JObj?
              && m.total == Get(reply.body.fields, totalCountField) && !m.total.JNull?
              && m.perPage == Get(reply.body.fields, perPageField) && !m.perPage.JNull?
    ensures reply.Response? && reply.status == 200 && reply.body.JObj? ==>
              (m.Paginated? <==> !Get(reply.body.fields, totalCountField).JNull?
                                 && !Get(reply.body.fields, perPageField).JNull?)
  {
    match reply
    case NetErr => Failed(NetworkError)
    case Response(status, body) =>
      if status != 200 then Failed(DataFetchFailed(status, url))
      else if !body.JObj? then Failed(AttributeError)
      else
        var total := Get(body.fields, totalCountField);
        var perPage := Get(body.fields, perPageField);
        if total.JNull? || perPage.JNull? then RawBody(body)
        else Paginated(total, perPage)
  }

  /** `params.get(per_page_field, self.per_page or per_page)`: the request
      parameter wins when present, then a truthy configured value, then the
      value the response reported. */
  function ResolvePerPage(params: Dict<Json>, perPageField: string, configured: Json, reported: Json): (r: Json)
    ensures Lookup(params, perPageField).Some? ==> r == Lookup(params, perPageField).value
    ensures Lookup(params, perPageField).None? && Truthy(configured) ==> r == configured
    ensures Lookup(params, perPageField).None? && !Truthy(configured) ==> r == reported
  {
    match Lookup(params, perPageField)
    case Some(v) => v
    case None => if Truthy(configured) then configured else reported
  }

  /** Python's `a // b` on integers: rounds toward negative infinity. */
  function FloorDiv(a: int, b: int): (q: int)
    requires b != 0
    ensures b > 0 ==> q * b <= a < (q + 1) * b
    ensures b < 0 ==> q * b >= a > (q + 1) * b
  {
    if b > 0 then a / b else (-a) / (-b)
  }

  /** `1 if download_one_page_only else -(-total_count // per_page)`, with the
      exceptions Python raises on the way. */
  function PageCount(total: Json, perPage: Json, onePageOnly: bool): (r: Result<int>)
    ensures onePageOnly ==> r == Success(1)
    ensures r.Failure? ==> r.error == ZeroDivisionError || r.error == TypeError
    ensures !onePageOnly && (IntValue(total).None? || IntValue(perPage).None?) ==> r == Failure(TypeError)
    ensures !onePageOnly && IntValue(total).Some? && IntValue(perPage) == Some(0) ==> r == Failure(ZeroDivisionError)
    ensures !onePageOnly && IntValue(total).Some? && IntValue(perPage).Some? && IntValue(perPage).value != 0 ==>
              r.Success?
  {
    if onePageOnly then Success(1)
    else
      match (IntValue(total), IntValue(perPage))
      case (Some(t), Some(p)) =>
        if p == 0 then Failure(ZeroDivisionError) else Success(-FloorDiv(-t, p))
      case _ => Failure(TypeError)
  }

  /** For a positive per-page value the page count is the ceiling of
      total / per-page: enough pages to hold every record, and one fewer
      would not be. */
  lemma PageCountIsCeiling(total: Json, perPage: Json)
    requires IntValue(total).Some? && IntValue(perPage).Some?
    requires IntValue(perPage).value > 0
    ensures PageCount(total, perPage, false).Success?
    ensures var n, t, p := PageCount(total, perPage, false).value, IntValue(total).value, IntValue(perPage).value;
            (n - 1) * p < t <= n * p
  {
    var t, p := IntValue(total).value, IntValue(perPage).value;
    var q := FloorDiv(-t, p);
    assert q * p <= -t < (q + 1) * p;
    assert (-q - 1) * p == -(q + 1) * p;
    assert (-q) * p == -(q * p);
  }

  /** An empty collection gives no pages at all. */
  lemma PageCountOfEmpty(perPage: Json)
    requires IntValue(perPage).Some? && IntValue(perPage).value > 0
    ensures PageCount(JNum(0), perPage, false) == Success(0)
  {
    PageCountIsCeiling(JNum(0), perPage);
  }

  /** A negative per-page value is not rejected: with a positive total it
      gives a page count of zero or less, so no page is fetched. */
  lemma NegativePerPageFetchesNothing(total: Json, perPage: Json)
    requires IntValue(total).Some? && IntValue(total).value > 0
    requires IntValue(perPage).Some? && IntValue(perPage).value < 0
    ensures PageCount(total, perPage, false).Success?
    ensures PageCount(total, perPage, false).value <= 0
  {
    var t, p := IntValue(total).value, IntValue(perPage).value;
    var q := FloorDiv(-t, p);
    assert q * p >= -t;
  }

  /** The end-to-end example: a first response reporting 10 records at 5 per
      page plans 2 pages; 10 records at 3 per page plan 4. */
  lemma PlanExamples()
    ensures PageCount(JNum(10), JNum(5), false) == Success(2)
    ensures PageCount(JNum(10), JNum(3), false) == Success(4)
    ensures PageCount(JNum(10), JNum(0), false) == Failure(ZeroDivisionError)
    ensures PageCount(JNum(10), JStr("5"), false) == Failure(TypeError)
  {
  }
}
