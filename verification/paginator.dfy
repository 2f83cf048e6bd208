/**
 * The `Paginator` object: its login state (`token`, `headers`), the
 * per-page setting it overwrites, the page worker `fetch_page` and the
 * whole `fetch_all_pages` operation.
 *
 * Every HTTP exchange is an input: `loginReply` is the reply to the login
 * POST, `first` the reply to the planning GET, and `workers(p)` the replies
 * page p's worker receives, one per attempt. All workers send the same
 * request (the page number is only used in log messages), so `workers(p)`
 * differs between pages only because the server may answer differently.
 */
module Paginator {
  import opened Json
  import opened Protocol
  import opened Planner
  import opened PageFetch
  import opened Scheduling
  import Flattener

  /** The constructor arguments that the operations read and never change.
      An absent login URL and a falsy data field are written "". */
  datatype Settings = Settings(
    loginUrl: string,
    authData: Json,
    perPageField: string,
    totalCountField: string,
    maxThreads: int,
    downloadOnePageOnly: bool,
    dataField: string)

  /** The outcome of the login POST: the token the body carries, or the
      exception `login` raises. */
  function LoginExchange(loginUrl: string, authData: Json, reply: Reply): (r: Result<Json>)
    ensures loginUrl == "" || !Truthy(authData) ==> r == Failure(ValueError)
    ensures loginUrl != "" && Truthy(authData) && reply.NetErr? ==> r == Failure(NetworkError)
    ensures loginUrl != "" && Truthy(authData) && reply.Response? && reply.status != 200 ==>
              r == Failure(LoginFailed(reply.status))
    ensures loginUrl != "" && Truthy(authData) && reply.Response? && reply.status == 200 && !reply.body.JObj? ==>
              r == Failure(AttributeError)
    ensures r.Success? <==> loginUrl != "" && Truthy(authData) && reply.Response?
                            && reply.status == 200 && reply.body.JObj?
    ensures r.Success? ==> r.value == Get(reply.body.fields, "token")
  {
    if loginUrl == "" || !Truthy(authData) then Failure(ValueError)
    else
      match reply
      case NetErr => Failure(NetworkError)
      case Response(status, body) =>
        if status != 200 then Failure(LoginFailed(status))
        else if !body.JObj? then Failure(AttributeError)
        else Success(Get(body.fields, "token"))
  }

  /** The value of the Authorization header: `f'Bearer {token}'`. */
  function BearerHeader(token: Json): (h: string)
    ensures |h| >= 7 && h[..7] == "Bearer "
    ensures token.JStr? ==> h[7..] == token.s
  {
    "Bearer " + PyStr(token)
  }

  /** The guard in `fetch_all_pages`: log in only when a login URL and auth
      data are configured and no truthy token is held. */
  function NeedsLogin(s: Settings, token: Json): (b: bool)
    ensures Truthy(token) ==> !b
    ensures b ==> forall reply :: LoginExchange(s.loginUrl, s.authData, reply) != Failure(ValueError)
    ensures !Truthy(token) && !b ==> forall reply :: LoginExchange(s.loginUrl, s.authData, reply) == Failure(ValueError)
  {
    s.loginUrl != "" && !Truthy(token) && Truthy(s.authData)
  }

  /** What `fetch_all_pages` returns after the login guard, paired with the
      value it leaves in `self.per_page` (`configured` is the value before). */
  function Run(s: Settings, retry: int, configured: Json, first: Reply, url: string,
               params: Dict<Json>, flatten: bool, workers: int -> (nat -> Reply)): (out: (Result<Json>, Json))
    ensures first.Response? && first.status != 200 ==>
              out == (Failure(DataFetchFailed(first.status, url)), configured)
    ensures out.1 != configured ==> ReadMetadata(first, url, s.totalCountField, s.perPageField).Paginated?
  {
    match ReadMetadata(first, url, s.totalCountField, s.perPageField)
    case Failed(e) => (Failure(e), configured)
    case RawBody(body) =>
      (Success(if flatten then JObj(Flattener.Flatten(body)) else body), configured)
    case Paginated(total, reported) =>
      var perPage := ResolvePerPage(params, s.perPageField, configured, reported);
      match PageCount(total, perPage, s.downloadOnePageOnly)
      case Failure(e) => (Failure(e), perPage)
      case Success(n) =>
        (Success(JArr(Assemble(Collect(PageRecords(workers, retry, s.dataField), Pages(n)), flatten))), perPage)
  }

  /** When the first response lacks the total count or the per-page value
      (absent or null), the body itself is the result, flattened on request,
      `self.per_page` keeps its value, and no page worker runs: the result is
      the same whatever the workers would have received. */
  lemma EarlyExitStartsNoWorkers(s: Settings, retry: int, configured: Json, fs: Dict<Json>, url: string,
                                 params: Dict<Json>, flatten: bool, w1: int -> (nat -> Reply), w2: int -> (nat -> Reply))
    requires Get(fs, s.totalCountField).JNull? || Get(fs, s.perPageField).JNull?
    ensures Run(s, retry, configured, Response(200, JObj(fs)), url, params, flatten, w1)
         == Run(s, retry, configured, Response(200, JObj(fs)), url, params, flatten, w2)
    ensures Run(s, retry, configured, Response(200, JObj(fs)), url, params, flatten, w1)
         == (Success(if flatten then JObj(Flattener.Flatten(JObj(fs))) else JObj(fs)), configured)
  {
  }

  /** End to end: with `total` records at `p` per page and every page that
      the total reaches (page q with (q - 1) * p < total) coming back full,
      whatever later pages would answer, the result holds `p` records for each of the ceil(total / p)
      pages (every record, and less than one page more), and the reported
      per-page value is stored in `self.per_page`. */
  lemma FullPagesEndToEnd(s: Settings, retry: int, configured: Json, fs: Dict<Json>, url: string,
                          params: Dict<Json>, flatten: bool, workers: int -> (nat -> Reply), total: int, p: int)
    requires !s.downloadOnePageOnly
    requires Lookup(params, s.perPageField).None? && !Truthy(configured)
    requires Get(fs, s.totalCountField) == JNum(total) && total >= 0
    requires Get(fs, s.perPageField) == JNum(p) && p > 0
    requires forall q :: 1 <= q && (q - 1) * p < total ==> |PageRecords(workers, retry, s.dataField)(q)| == p
    ensures var out := Run(s, retry, configured, Response(200, JObj(fs)), url, params, flatten, workers);
            && out.1 == JNum(p)
            && out.0.Success? && out.0.value.JArr?
            && |out.0.value.items| == p * PageCount(JNum(total), JNum(p), false).value
            && |out.0.value.items| - p < total <= |out.0.value.items|
  {
    PageCountIsCeiling(JNum(total), JNum(p));
    var n := PageCount(JNum(total), JNum(p), false).value;
    assert n >= 0;
    var records := PageRecords(workers, retry, s.dataField);
    var items := Collect(records, Pages(n));
    forall q | 1 <= q <= n ensures |records(q)| == p {
      MultiplyMonotone(q - 1, n - 1, p);
    }
    FullPagesTotal(records, n, p);
    assert (n - 1) * p == p * n - p;
    RunPaginated(s, retry, configured, fs, url, params, flatten, workers, JNum(total), JNum(p));
    assert ResolvePerPage(params, s.perPageField, configured, JNum(p)) == JNum(p);
  }

  /** The paginated case of `Run`, one step at a time. */
  lemma RunPaginated(s: Settings, retry: int, configured: Json, fs: Dict<Json>, url: string,
                     params: Dict<Json>, flatten: bool, workers: int -> (nat -> Reply), total: Json, reported: Json)
    requires Get(fs, s.totalCountField) == total && !total.JNull?
    requires Get(fs, s.perPageField) == reported && !reported.JNull?
    ensures var perPage := ResolvePerPage(params, s.perPageField, configured, reported);
            var count := PageCount(total, perPage, s.downloadOnePageOnly);
            Run(s, retry, configured, Response(200, JObj(fs)), url, params, flatten, workers)
            == if count.Failure? then (Failure(count.error), perPage)
               else (Success(JArr(Assemble(Collect(PageRecords(workers, retry, s.dataField), Pages(count.value)), flatten))), perPage)
  {
    assert ReadMetadata(Response(200, JObj(fs)), url, s.totalCountField, s.perPageField) == Paginated(total, reported);
  }

  /** A page answered with 401 or 403 does not stop the fetch: that page
      adds nothing and the result holds the records of all the other planned
      pages, in the order this model launches them. */
  lemma RefusedPageDoesNotAbort(s: Settings, retry: int, configured: Json, fs: Dict<Json>, url: string,
                                params: Dict<Json>, flatten: bool, workers: int -> (nat -> Reply),
                                total: int, p: int, q: int)
    requires !s.downloadOnePageOnly && retry > 0
    requires Lookup(params, s.perPageField).None? && !Truthy(configured)
    requires Get(fs, s.totalCountField) == JNum(total)
    requires Get(fs, s.perPageField) == JNum(p) && p > 0
    requires 1 <= q && (q - 1) * p < total
    requires workers(q)(0).Response? && (workers(q)(0).status == 401 || workers(q)(0).status == 403)
    ensures PageCount(JNum(total), JNum(p), false).Success?
    ensures var ps := Pages(PageCount(JNum(total), JNum(p), false).value);
            && q <= |ps|
            && Run(s, retry, configured, Response(200, JObj(fs)), url, params, flatten, workers).0
               == Success(JArr(Assemble(Collect(PageRecords(workers, retry, s.dataField), ps[..q - 1] + ps[q..]), flatten)))
  {
    PageCountIsCeiling(JNum(total), JNum(p));
    var n := PageCount(JNum(total), JNum(p), false).value;
    FactorBound(q - 1, n, p);
    RefusedPageSkipped(workers, retry, s.dataField, n, q);
    RunPaginated(s, retry, configured, fs, url, params, flatten, workers, JNum(total), JNum(p));
    assert ResolvePerPage(params, s.perPageField, configured, JNum(p)) == JNum(p);
  }

  /** Multiplying both sides of a non-strict inequality by a positive factor. */
  lemma MultiplyMonotone(a: int, b: int, p: int)
    requires p > 0 && a <= b
    ensures a * p <= b * p
  {
  }

  /** Dividing both sides of a strict inequality by a positive factor. */
  lemma FactorBound(a: int, b: int, p: int)
    requires p > 0 && a * p < b * p
    ensures a < b
  {
  }

  /** A zero per-page value, reported by the server and not overridden,
      ends the fetch with a division error after it has been stored. */
  lemma ZeroPerPageFails(s: Settings, retry: int, configured: Json, fs: Dict<Json>, url: string,
                         params: Dict<Json>, flatten: bool, workers: int -> (nat -> Reply), total: int)
    requires !s.downloadOnePageOnly
    requires Lookup(params, s.perPageField).None? && !Truthy(configured)
    requires Get(fs, s.totalCountField) == JNum(total) && Get(fs, s.perPageField) == JNum(0)
    ensures Run(s, retry, configured, Response(200, JObj(fs)), url, params, flatten, workers)
         == (Failure(ZeroDivisionError), JNum(0))
  {
  }

  /** A per-page value stored by an earlier call wins over the one the server
      reports, unless the request parameters carry one. */
  lemma StoredPerPageWins(s: Settings, retry: int, configured: Json, fs: Dict<Json>, url: string,
                          params: Dict<Json>, flatten: bool, workers: int -> (nat -> Reply))
    requires Truthy(configured)
    requires !Get(fs, s.totalCountField).JNull? && !Get(fs, s.perPageField).JNull?
    ensures Run(s, retry, configured, Response(200, JObj(fs)), url, params, flatten, workers).1
         == if Lookup(params, s.perPageField).Some? then Lookup(params, s.perPageField).value else configured
  {
  }

  /** A successful login with token "abc" sends `Authorization: Bearer abc`. */
  lemma LoginExample(loginUrl: string, authData: Json)
    requires loginUrl != "" && Truthy(authData)
    ensures LoginExchange(loginUrl, authData, Response(200, JObj([("token", JStr("abc"))]))) == Success(JStr("abc"))
    ensures BearerHeader(JStr("abc")) == "Bearer abc"
  {
    assert Lookup([("token", JStr("abc"))], "token") == Some(JStr("abc"));
  }

  /** A 200 login reply without a token stores None, sends the header
      `Bearer None`, and leaves the guard asking for another login. */
  lemma MissingTokenKeepsLoginPending(s: Settings, fs: Dict<Json>)
    requires s.loginUrl != "" && Truthy(s.authData)
    requires !HasKey(fs, "token")
    ensures LoginExchange(s.loginUrl, s.authData, Response(200, JObj(fs))) == Success(JNull)
    ensures BearerHeader(JNull) == "Bearer None"
    ensures NeedsLogin(s, JNull)
  {
  }

  /** What `FetchPage` adds is what `PageRecords` says page p adds. */
  lemma RecordsOfPage(workers: int -> (nat -> Reply), retry: int, dataField: string, p: int, e: PageEnd)
    requires e == PageRun(workers(p), retry, dataField, 0)
    ensures PageRecords(workers, retry, dataField)(p) == Contribution(e)
  {
  }

  /** The shared list the page workers extend. */
  class RecordList {
    var items: seq<Json>

    constructor ()
      ensures items == []
    {
      items := [];
    }

    /** `results.extend(xs)` for an iterable already turned into its elements. */
    method Extend(xs: seq<Json>)
      modifies this
      ensures items == old(items) + xs
    {
      items := items + xs;
    }
  }

  class Paginator {
    const settings: Settings
    const retry: int
    var perPage: Json
    var token: Json
    var headers: Dict<string>

    /** A new paginator: five attempts per page, no token, no headers. The
        source's defaults are `per_page_field='per_page'`,
        `total_count_field='total'`, `max_threads=5`,
        `download_one_page_only=False` and `data_field='data'`. */
    constructor (settings: Settings, perPage: Json)
      ensures this.settings == settings && this.perPage == perPage
      ensures retry == 5 && token == JNull && headers == []
    {
      this.settings := settings;
      this.perPage := perPage;
      retry := 5;
      token := JNull;
      headers := [];
    }

    /** `login`: POST the auth data; on a 200 store the body's token and set
        the Authorization header, leaving every other header as it was; on any
        failure raise and change nothing. */
    method Login(reply: Reply) returns (r: Outcome)
      modifies this`token, this`headers
      ensures match LoginExchange(settings.loginUrl, settings.authData, reply)
              case Success(tok) =>
                r == Pass && token == tok
                && headers == Put(old(headers), "Authorization", BearerHeader(tok))
              case Failure(e) =>
                r == Fail(e) && token == old(token) && headers == old(headers)
    {
      if settings.loginUrl == "" || !Truthy(settings.authData) {
        return Fail(ValueError);
      }
      match reply {
        case NetErr =>
          return Fail(NetworkError);
        case Response(status, body) =>
          if status != 200 {
            return Fail(LoginFailed(status));
          }
          if !body.JObj? {
            return Fail(AttributeError);
          }
          token := Get(body.fields, "token");
          headers := Put(headers, "Authorization", BearerHeader(token));
          return Pass;
      }
    }

    /** `fetch_page`: up to `retry` attempts; the first 200 extends `results`
        with the page's records and stops, a 401 or 403 raises, anything else
        costs one attempt. */
    method FetchPage(replies: nat -> Reply, results: RecordList) returns (e: PageEnd)
      modifies results
      ensures e == PageRun(replies, retry, settings.dataField, 0)
      ensures results.items == old(results.items) + Contribution(e)
    {
      var retries := retry;
      var k: nat := 0;
      while retries > 0
        invariant PageRun(replies, retry, settings.dataField, 0)
               == PageRun(replies, retries, settings.dataField, k)
        invariant results.items == old(results.items)
        decreases retries
      {
        var reply := replies(k);
        k := k + 1;
        if reply.Response? && reply.status == 200 {
          var data := Extract(reply.body, settings.dataField);
          if data.Failure? {
            return Raised(data.error, k);
          }
          results.Extend(data.value);
          return Fetched(data.value, k);
        }
        if reply.Response? && (reply.status == 401 || reply.status == 403) {
          return Raised(AuthenticationFailed(reply.status), k);
        }
        retries := retries - 1;
      }
      return Exhausted(k);
    }

    /** `fetch_all_pages`: log in when the guard asks for it, then plan with
        the first response, run the workers batch by batch and assemble the
        result. A failed login ends the call before any request for data. */
    method FetchAllPages(url: string, params: Dict<Json>, flatten: bool, loginReply: Reply,
                         first: Reply, workers: int -> (nat -> Reply)) returns (r: Result<Json>)
      modifies this`token, this`headers, this`perPage
      ensures var ex := LoginExchange(settings.loginUrl, settings.authData, loginReply);
              if old(NeedsLogin(settings, token)) && ex.Failure? then
                r == Failure(ex.error)
                && token == old(token) && headers == old(headers) && perPage == old(perPage)
              else
                (if old(NeedsLogin(settings, token))
                 then token == ex.value
                      && headers == Put(old(headers), "Authorization", BearerHeader(ex.value))
                 else token == old(token) && headers == old(headers))
                && (r, perPage) == Run(settings, retry, old(perPage), first, url, params, flatten, workers)
    {
      if NeedsLogin(settings, token) {
        var o := Login(loginReply);
        if o.Fail? {
          return Failure(o.error);
        }
      }
      r := FetchAfterLogin(url, params, flatten, first, workers);
    }

    /** `fetch_all_pages` from the first GET on: fail, return the raw (or
        flattened) body, or plan the pages, run them and assemble. */
    method FetchAfterLogin(url: string, params: Dict<Json>, flatten: bool, first: Reply,
                           workers: int -> (nat -> Reply)) returns (r: Result<Json>)
      modifies this`perPage
      ensures (r, perPage) == Run(settings, retry, old(perPage), first, url, params, flatten, workers)
    {
      var meta := ReadMetadata(first, url, settings.totalCountField, settings.perPageField);
      match meta {
        case Failed(err) =>
          return Failure(err);
        case RawBody(body) =>
          if flatten {
            var flat := Flattener.FlattenJson(body);
            return Success(JObj(flat));
          }
          return Success(body);
        case Paginated(total, reported) =>
          perPage := ResolvePerPage(params, settings.perPageField, perPage, reported);
          var count := PageCount(total, perPage, settings.downloadOnePageOnly);
          if count.Failure? {
            return Failure(count.error);
          }
          var batches := Schedule(count.value, settings.maxThreads);
          var items := RunBatches(batches, workers);
          return Success(JArr(Assemble(items, flatten)));
      }
    }

    /** The launch-and-join loop run one worker at a time: every worker of a
        batch extends the shared list before the next batch starts. */
    method RunBatches(batches: seq<seq<int>>, workers: int -> (nat -> Reply)) returns (items: seq<Json>)
      ensures items == Collect(PageRecords(workers, retry, settings.dataField), Concat(batches))
    {
      var results := new RecordList();
      var b := 0;
      while b < |batches|
        invariant 0 <= b <= |batches|
        invariant results.items == Collect(PageRecords(workers, retry, settings.dataField), Concat(batches[..b]))
        modifies results
      {
        RunBatch(batches[b], workers, results);
        CollectAppend(PageRecords(workers, retry, settings.dataField), Concat(batches[..b]), batches[b]);
        assert batches[..b + 1] == batches[..b] + [batches[b]];
        ConcatSnoc(batches[..b], batches[b]);
        b := b + 1;
      }
      assert batches[..b] == batches;
      items := results.items;
    }

    /** One batch: its workers are started in page order and all joined. */
    method RunBatch(batch: seq<int>, workers: int -> (nat -> Reply), results: RecordList)
      modifies results
      ensures results.items == old(results.items) + Collect(PageRecords(workers, retry, settings.dataField), batch)
    {
      ghost var records := PageRecords(workers, retry, settings.dataField);
      ghost var start := results.items;
      var j := 0;
      while j < |batch|
        invariant 0 <= j <= |batch|
        invariant results.items == start + Collect(records, batch[..j])
      {
        RunWorker(batch[j], workers, results);
        CollectStep(records, batch, j);
        j := j + 1;
      }
      assert batch[..j] == batch;
    }

    /** The worker for page p: `fetch_page` with the replies page p receives. */
    method RunWorker(p: int, workers: int -> (nat -> Reply), results: RecordList)
      modifies results
      ensures results.items == old(results.items) + PageRecords(workers, retry, settings.dataField)(p)
    {
      var e := FetchPage(workers(p), results);
      RecordsOfPage(workers, retry, settings.dataField, p, e);
    }
  }
}
