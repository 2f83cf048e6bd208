# jsonPagination paginator, modelled in Dafny

`jsonPagination` downloads every record of a paginated JSON API. Its
`Paginator` object works in four steps:

- It logs in when a login URL and auth data are configured and no truthy
  token is held yet. The login stores a bearer token and an `Authorization`
  header.
- It asks the endpoint once for the pagination metadata: the total count and
  the page size.
- It starts one worker thread per page, joined in batches of `max_threads`.
  Each worker makes at most five attempts at its GET and appends the
  page's records to a shared list.
- It returns that list, optionally passing every record through
  `flatten_json`. That function collapses a nested value into a
  single-level dictionary whose keys are `_`-joined paths.

This project models that core. Every HTTP exchange is an input value:

- `loginReply` is the reply to the login POST.
- `first` is the reply to the planning GET.
- `workers(p)(k)` is the reply to attempt `k` of page `p`'s worker.

The reply is either a status with a decoded JSON body or a network error.

The modules follow the source's pieces:

- `Json` holds Python values and insertion-ordered dictionaries: `d[k] = v`,
  `d.get(k)`, truthiness and `str()`.
- `Protocol` holds replies and exceptions.
- `Flattener` models `flatten_json`.
- `Planner` models the first response, the per-page resolution and the page
  count.
- `PageFetch` models the retry loop of `fetch_page` as a function of the
  replies.
- `Scheduling` models the launch-and-join schedule, the shared results list
  and the final list comprehension.
- `Paginator` holds the object itself. It is a class with the fields `token`,
  `headers` and `perPage`, and the methods `Login`, `FetchPage` and
  `FetchAllPages`.

Each imperative method is proved against a specification function, and the
properties are proved as lemmas about those functions:

| method | function |
|---|---|
| `FlattenInto` | `Walk` |
| `FetchPage` | `PageRun` |
| `Schedule` | `Pages` and `Concat` |
| `FetchAllPages` | `Run` |

Workers run one after another, in the order this model launches them. That is
one interleaving the threads allow. Each page's records stay together and in response order
(`PageIsContiguous`), because the extend runs under a lock. The order of the
pages in the result is only the order this schedule fixes. The source does
not promise any order across pages.

In several places the code behaves differently from what a reader might
expect of a paginator. The model follows the code:

- A 401 or 403 raises `AuthenticationFailed` inside the worker thread. It ends
  only that worker: its page adds nothing, and the other pages are still
  fetched (`RefusedPageDoesNotAbort`). Nothing aborts the remaining batches.
- The per-page value is not validated:
  - zero fails with Python's `ZeroDivisionError` (`ZeroPerPageFails`);
  - a negative value with a positive total gives a page count of zero or
    less, so no page is fetched (`NegativePerPageFetchesNothing`).
- The "pagination fields missing" check looks only at the response's own
  per-page field. The configured value is not a fallback there
  (`ReadMetadata`).
- There is no delay between attempts.
- The page index is not sent with the request.
- There is no start-index field.
- The docstring of `fetch_all_pages` promises a `ValueError` when the
  pagination fields are missing, but the code returns the raw body, flattened
  on request (`EarlyExitStartsNoWorkers`).

## Model

| member | source | states |
|---|---|---|
| Json.Put | jsonPagination/paginator.py:133 | `d[k] = v`: afterwards `k` maps to `v` and every other key keeps its value. A new key is appended at the end; an existing key keeps its position and only its value changes. |
| Json.LookupPutAll | jsonPagination/paginator.py:133 | Last write wins. After a sequence of writes, a key holds the value of the last write to it, or its old value when none wrote it. |
| Json.Get | jsonPagination/paginator.py:264-265 | `d.get(k)`: for a present key, a value stored under `k`; for an absent key, `None`. |
| Json.PyStr | jsonPagination/paginator.py:172 | `str(x)` as the f-string renders it. A string is itself and `None` is `None`. A boolean is `True` or `False`. A non-negative integer is exactly its canonical decimal numeral `NatToString(n)`, and a negative one is `-` followed by the numeral of its absolute value. Each numeral denotes that number. |
| Json.NatToString | jsonPagination/paginator.py:130 | `str(n)` for a natural number is at least one decimal digit with no leading zero: a string starting with `0` is exactly `"0"`, for `n == 0`. |
| Json.NatToStringRoundTrip | jsonPagination/paginator.py:130 | `str(i)` of a list position is a decimal numeral that denotes exactly `i`. |
| Json.NatToStringInjective | jsonPagination/paginator.py:130 | Distinct list positions get distinct key components. |
| Flattener.FlattenInto | jsonPagination/paginator.py:123-133 | The inner `flatten`, with its `for` loops and index counter `i`, leaves the output dictionary equal to the recursive walk `Walk(out0, x, name)`. |
| Flattener.FlattenJson | jsonPagination/paginator.py:101-136 | `flatten_json(y)` returns the walk of `y` from an empty dictionary and an empty name, and the result is flat: distinct keys, scalar values. |
| Flattener.WalkLeaves | jsonPagination/paginator.py:123-133 | The recursive `flatten(x, name)` (`Walk`) writes the scalar leaves of `x`, in document order, into the output so far, each under `name` followed by its `_`-terminated path, minus the last character. |
| Flattener.WalkFieldsLeaves | jsonPagination/paginator.py:124-126 | The dict loop (`WalkFields`) writes the leaves of each value in key order, each under `name`, then its key, then its path, as the walk of the dict's values does. |
| Flattener.WalkItemsLeaves | jsonPagination/paginator.py:127-131 | The list loop (`WalkItems`) writes the leaves of each element in order, each under `name`, then its decimal position counted from `i`, then its path. |
| Flattener.FlattenIsLastWriteOfLeaves | jsonPagination/paginator.py:123-135 | The output is what you get by writing every scalar leaf of `y`, in document order, under its path of dict keys and list positions joined by `_`. This is checked against an independent enumeration of leaves and paths. |
| Flattener.FlattenLookup | jsonPagination/paginator.py:123-136 | Each key of the output holds the value of the last leaf whose joined path is that key. A key with no such leaf is absent. |
| Flattener.FlattenIsFlat | jsonPagination/paginator.py:123-136 | Every value of the output is a scalar, never a dict or list, and no key occurs twice. |
| Flattener.FlatDictIsFixed | jsonPagination/paginator.py:124-126 | Flattening a dictionary of scalars with distinct keys returns it unchanged. |
| Flattener.FlattenIdempotent | jsonPagination/paginator.py:101-136 | `flatten_json(flatten_json(y)) == flatten_json(y)`. |
| Flattener.FlattenScalar | jsonPagination/paginator.py:132-133 | A top-level scalar yields the single key `""`, because `''[:-1]` is `''`. |
| Flattener.EmptyFieldContributesNothing | jsonPagination/paginator.py:124-126 | A key whose value is an empty dict or list adds no entry, wherever it sits among a dict's keys: walking the dict with it gives the same output as walking the dict without it, for any output written so far and any key prefix, so at any depth. |
| Flattener.EmptyItemContributesNothing | jsonPagination/paginator.py:127-131 | An empty dict or list anywhere in a list adds no entry but still uses up its position. The elements before it are walked as usual, and the ones after it as if numbered from its index plus one. This holds for any output written so far and any key prefix, so at any depth. |
| Flattener.DocstringExample | jsonPagination/paginator.py:117-119 | `{"a": {"b": 1, "c": {"d": 2}}}` flattens to `{"a_b": 1, "a_c_d": 2}`, for any scalars in place of 1 and 2. |
| Flattener.CollisionExample | jsonPagination/paginator.py:127-133 | `{"a": [x, y], "a_0": z}` flattens to `{"a_0": z, "a_1": y}`: list positions become decimal keys, and a colliding later leaf overwrites in place. |
| Planner.ReadMetadata | jsonPagination/paginator.py:255-267 | A network error on the first request propagates as a `RequestException`. A status other than 200 raises `DataFetchFailed(status, url)`. A 200 body that is not a dict raises `AttributeError`. A total-count or per-page field that is absent or `None` returns the body as it is. For a 200 dict body, the result is `Paginated` exactly when both fields are present and not `None`, and then it carries both values. |
| Planner.ResolvePerPage | jsonPagination/paginator.py:269-270 | The request parameter wins when present, then a truthy configured value, then the value the response reported. |
| Planner.FloorDiv | jsonPagination/paginator.py:271-272 | Python's `//` rounds toward negative infinity, for either sign of the divisor. |
| Planner.PageCountIsCeiling | jsonPagination/paginator.py:271-272 | For a positive per-page, `-(-total // per_page)` is the ceiling of total / per-page. Those pages hold every record, and one page fewer would not. |
| Planner.PageCountOfEmpty | jsonPagination/paginator.py:271-272 | A total of zero plans no pages, at a positive per-page. |
| Planner.NegativePerPageFetchesNothing | jsonPagination/paginator.py:271-272 | A negative per-page with a positive total gives a page count of at most zero, with no error. |
| Planner.PageCount | jsonPagination/paginator.py:271-272 | Single-page mode plans exactly one page, with no division, so no error. Otherwise a non-number total or per-page raises `TypeError`, a zero per-page raises `ZeroDivisionError`, and any other per-page gives a count. Those two are the only errors. |
| Planner.PlanExamples | jsonPagination/paginator.py:271-272 | 10 records at 5 per page give 2 pages, and at 3 per page give 4. A zero per-page is a division error, and a string per-page is a type error. |
| PageFetch.Iterate | jsonPagination/paginator.py:203 | `list.extend(v)` appends a list's items, a dict's keys (as strings, in order) or a string's characters. A number, bool or `None` raises a TypeError. |
| PageFetch.Extract | jsonPagination/paginator.py:199-203 | With a falsy data field, the whole body is the record set. A present field gives exactly what `extend` takes from `body[data_field]`, and a missing field gives `[]`. With a truthy data field, a body that is not a dict raises an AttributeError. |
| PageFetch.PageRun | jsonPagination/paginator.py:191-219 | The `while retries > 0` loop, entered after `k` attempts, ends having made at least `k`. It returns records only after a 200 reply to its last attempt, and raises `AuthenticationFailed(s)` only after a 401 or 403 reply to its last attempt. |
| PageFetch.AttemptsBounded | jsonPagination/paginator.py:191-219 | A worker makes at least one and at most `retry` requests, and none when `retry` is not positive. |
| PageFetch.ExhaustedIff | jsonPagination/paginator.py:193-219 | The worker gives up exactly when every one of its attempts met a network error or a status other than 200, 401 and 403. It has then used all its attempts. |
| PageFetch.StopsAtFirstDecisive | jsonPagination/paginator.py:193-219 | A worker that does not give up stops at its first 200, 401 or 403. Every earlier reply cost one attempt, and that reply alone decides the outcome. |
| PageFetch.AuthFailureIsFinal | jsonPagination/paginator.py:210-212 | A 401 or 403 raises `AuthenticationFailed` at once, with no further attempt, and the page adds nothing. |
| PageFetch.SuccessAfterRetries | jsonPagination/paginator.py:198-206 | A 200 after some transient failures yields exactly the page's extracted records, and no further attempt is made. |
| PageFetch.FiveServerErrors | jsonPagination/paginator.py:191-219 | With five attempts, a page answering 500 every time is given up after exactly five requests and adds no records. |
| Scheduling.Pages | jsonPagination/paginator.py:277 | `range(1, total_pages + 1)` has `total_pages` elements, or none when `total_pages` is not positive. |
| Scheduling.PagesAt | jsonPagination/paginator.py:277 | The i-th worker launched is the one for page i + 1. |
| Scheduling.BatchWidth | jsonPagination/paginator.py:283-286 | The join batch width is `max_threads`, or 1 when `max_threads` is below 1. |
| Scheduling.Schedule | jsonPagination/paginator.py:276-289 | The batches, one after another, are exactly pages 1..`total_pages` in order. Every batch has between 1 and the batch width workers, and every batch but the last is full. |
| Scheduling.LaunchedOnce | jsonPagination/paginator.py:277 | Page p gets a worker if and only if 1 <= p <= `total_pages`. The pages are launched in strictly increasing order, so each page gets exactly one worker. |
| Scheduling.Collect | jsonPagination/paginator.py:202-203 | The shared list after the given pages' workers have extended it. Every record in it was fetched by one of those pages. |
| Scheduling.CollectAppend | jsonPagination/paginator.py:283-289 | Running consecutive batches gives their results one after the other. |
| Scheduling.CollectMembers | jsonPagination/paginator.py:202-203 | A record is in the results if and only if some launched page's worker fetched it. |
| Scheduling.PageIsContiguous | jsonPagination/paginator.py:202-203 | A page's records arrive together and in response order, between the records of the pages before it and those of the pages after it. |
| Scheduling.FailedPageIsSkipped | jsonPagination/paginator.py:278-281 | A page whose worker gives up or raises adds nothing. The results equal those of the other pages alone. |
| Scheduling.FullPagesCount | jsonPagination/paginator.py:274-289 | When every page comes back with `per_page` records, the results hold `per_page` records per page. |
| Scheduling.FullPagesTotal | jsonPagination/paginator.py:274-289 | When every one of the `total_pages` planned pages contributes `per_page` records, the results hold exactly `per_page * total_pages` records. |
| Scheduling.RefusedPageSkipped | jsonPagination/paginator.py:276-289 | A planned page whose first reply is 401 or 403 is dropped from the results, and the other pages' records are collected as if it had never been planned. |
| Scheduling.Assemble | jsonPagination/paginator.py:294 | The returned list has one element per collected record. Each element is that record, or its flattening when requested. |
| Scheduling.AssembledAreFlat | jsonPagination/paginator.py:294 | With flattening on, every returned element is a flat dictionary, and flattening the output again changes nothing. |
| Paginator.LoginExchange | jsonPagination/paginator.py:158-178 | A missing login URL or falsy auth data raises `ValueError`. A status other than 200 raises `LoginFailed(status)`. A network error raises a `RequestException`. A 200 with a dict body yields `body.get('token')`, which is `None` when the key is absent. Any other 200 body raises `AttributeError`. |
| Paginator.BearerHeader | jsonPagination/paginator.py:172 | The header value starts with `"Bearer "`, and for a string token the rest is the token itself. |
| Paginator.NeedsLogin | jsonPagination/paginator.py:252-253 | A truthy token suppresses login. When no truthy token is held, the guard skips `login()` exactly in the cases where `login()` would raise `ValueError`, so the guarded call never raises it. |
| Paginator.LoginExample | jsonPagination/paginator.py:170-172 | Token `"abc"` gives the header `Bearer abc`. |
| Paginator.MissingTokenKeepsLoginPending | jsonPagination/paginator.py:171-172 | A 200 login reply without a token stores `None` and sends `Bearer None`. The guard of `fetch_all_pages` then still asks for a login. |
| Paginator.Run | jsonPagination/paginator.py:255-294 | A first response with a status other than 200 fails with `DataFetchFailed` and leaves `per_page` unchanged. `per_page` changes only when pagination goes ahead. |
| Paginator.EarlyExitStartsNoWorkers | jsonPagination/paginator.py:264-267 | Without pagination metadata, the result is the body, flattened on request. `per_page` is kept, and the result does not depend on any page worker's replies. |
| Paginator.FullPagesEndToEnd | jsonPagination/paginator.py:269-294 | With `total` records at `p` per page, and each page that the total reaches (page q with (q - 1) * p < total) coming back with `p` records, the result holds `p` records per planned page, at least `total` and less than one page more. The reported `p` is stored in `per_page`. |
| Paginator.RefusedPageDoesNotAbort | jsonPagination/paginator.py:276-289 | A planned page answered with 401 or 403 does not stop the fetch. The result holds the records of all the other planned pages, in the order this model launches them. |
| Paginator.ZeroPerPageFails | jsonPagination/paginator.py:269-272 | A zero per-page reported by the server, and not overridden, ends in a division error after it has been stored. |
| Paginator.StoredPerPageWins | jsonPagination/paginator.py:269-270 | A truthy stored per-page wins over the reported one, unless the request parameters carry one. |
| Paginator.RecordList.Extend | jsonPagination/paginator.py:203 | `results.extend(xs)` appends `xs` and keeps the old contents as a prefix. |
| Paginator.Paginator.constructor | jsonPagination/paginator.py:79-92 | A new paginator has five attempts per page, no token and no headers, and keeps the given settings and per-page value. |
| Paginator.Paginator.Login | jsonPagination/paginator.py:151-178 | On success, `token` is the body's token and `headers` gains `Authorization: Bearer <token>`, with every other header unchanged. On failure, the exception is reported and `token` and `headers` are unchanged. |
| Paginator.Paginator.FetchPage | jsonPagination/paginator.py:180-219 | The retry loop ends as `PageRun` says, and `results` is its old contents followed by what the page adds. Giving up or raising adds nothing. |
| Paginator.Paginator.FetchAllPages | jsonPagination/paginator.py:249-294 | It logs in only when the guard asks for it, and a failed login ends the call with no state changed. Otherwise the result and the new `per_page` are those of `Run`, and `token` and `headers` follow the login. |
| Paginator.Paginator.FetchAfterLogin | jsonPagination/paginator.py:255-294 | From the planning GET on, the result and the new `per_page` are those of `Run`. |
| Paginator.Paginator.RunBatches | jsonPagination/paginator.py:274-289 | Running the batches in order fills the shared list with the records of the concatenated batches' pages. |
| Paginator.Paginator.RunBatch | jsonPagination/paginator.py:283-289 | One batch extends the shared list with its pages' records, in page order. |
| Paginator.Paginator.RunWorker | jsonPagination/paginator.py:278-280 | Page p's worker extends the shared list with exactly what page p contributes. |

## Left out

- HTTP transport is not modelled: `requests.get` and `requests.post`, timeouts and SSL verification. Replies are inputs.
- JSON decoding is not modelled. With `requests` 2.27 or later, a body that fails to decode raises `requests.exceptions.JSONDecodeError`, which is a `RequestException`, so in a page worker it costs one attempt like a network error. Older `requests` releases raise a plain `ValueError`, which would end the worker instead. Bodies here are already decoded.
- Threads, the lock and `join` are not modelled. Workers run sequentially, in the order this model launches them. The model claims no order across pages, only that each page's records stay together.
- Exceptions raised inside a worker thread (`AuthenticationFailed`, `AttributeError`, `TypeError`) end that thread only. The model records them in the worker's outcome and drops them.
- Logging, `set_log_level` and the `tqdm` progress bar are left out. They are observability only.
- `data_queue` is never written, so draining it adds nothing. It is left out.
- `current_page_field` is stored but never read. `timeout` and `verify_ssl` act only through the transport: a timeout or a certificate failure raises a `RequestException`, and the model receives that outcome as a `NetErr` reply. It costs a page worker one attempt, and it aborts the login or the planning GET.
- The page number passed to a worker appears only in log messages. Every worker sends the same request, so `workers(p)` differs between pages only in the replies the server chooses to give.
- The records of the planning response are never added to the results, and the model does not add them either.
- Floats are not modelled, so JSON numbers are integers and `per_page` or `total` can never be a float.
- The `Json` model has no Python tuples, sets or other non-JSON values.
- A `JObj` value may repeat a key, which no decoded Python dict does. `Lookup` and `Get` read the first occurrence while `WalkFields` walks every pair, so the model assumes response bodies have distinct keys and states nothing particular about bodies that repeat one.
- `PyStr` follows `str()` exactly for `None`, booleans, integers and strings. For lists and dicts it follows `repr` without escaping quotes, backslashes or unprintable characters.
- An absent login URL or data field (`None`, an empty string) is written `""`, since the source only tests their truthiness. A dict key that is not a string is not modelled.
- The example scripts under `examples/` are not part of this model. They make network calls and use options that `Paginator` does not define.
