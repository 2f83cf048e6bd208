/**
 * The worker schedule of `Paginator.fetch_all_pages`: which pages get a
 * worker, how the workers are grouped into join batches, what the shared
 * results list holds once every batch has been joined, and the final
 * (optionally flattening) list comprehension.
 *
 * Workers are run one after another, in the order this model launches them. This is one of the
 * interleavings the threads allow; records of one page stay together in
 * every interleaving (the extend happens under a lock), but the order of
 * pages is only the one this schedule fixes.
 */
module Scheduling {
  import opened Json
  import opened Protocol
  import opened PageFetch
  import Flattener

  /** `range(1, n + 1)`. */
  function Pages(n: int): (ps: seq<int>)
    ensures |ps| == if n > 0 then n else 0
    decreases if n > 0 then n else 0
  {
    if n <= 0 then [] else Pages(n - 1) + [n]
  }

  /** The i-th worker launched is the one for page i + 1. */
  lemma {:induction false} PagesAt(n: int, i: int)
    requires 0 <= i < |Pages(n)|
    ensures Pages(n)[i] == i + 1
    decreases if n > 0 then n else 0
  {
    if i < n - 1 {
      PagesAt(n - 1, i);
    }
  }

  /** The batches one after another. */
  function Concat(bs: seq<seq<int>>): seq<int> {
    if bs == [] then [] else Concat(bs[..|bs| - 1]) + bs[|bs| - 1]
  }

  lemma ConcatSnoc(bs: seq<seq<int>>, b: seq<int>)
    ensures Concat(bs + [b]) == Concat(bs) + b
  {
    assert (bs + [b])[..|bs|] == bs;
  }

  /** How many workers a batch holds before it is joined: the loop joins as
      soon as `len(threads) >= max_threads`, so a bound below 1 still lets one
      worker start. */
  function BatchWidth(maxThreads: int): (w: int)
    ensures w >= 1 && w >= maxThreads
    ensures maxThreads >= 1 ==> w == maxThreads
    ensures maxThreads < 1 ==> w == 1
  {
    if maxThreads >= 1 then maxThreads else 1
  }

  /** The launch loop: workers for pages 1..totalPages are started in order;
      whenever `maxThreads` of them are outstanding they are joined, and the
      remainder is joined after the loop. Each returned batch is one group of
      workers joined together. */
  method Schedule(totalPages: int, maxThreads: int) returns (batches: seq<seq<int>>)
    ensures Concat(batches) == Pages(totalPages)
    ensures forall b :: 0 <= b < |batches| ==> 1 <= |batches[b]| <= BatchWidth(maxThreads)
    ensures forall b :: 0 <= b < |batches| - 1 ==> |batches[b]| == BatchWidth(maxThreads)
  {
    ghost var w := BatchWidth(maxThreads);
    ghost var joined: seq<int> := [];
    batches := [];
    var threads: seq<int> := [];
    var page := 1;
    while page <= totalPages
      invariant 1 <= page <= (if totalPages > 0 then totalPages else 0) + 1
      invariant Launched(batches, joined, threads, page - 1, w)
    {
      Launch(batches, joined, threads, page, maxThreads);
      threads := threads + [page];
      if |threads| >= maxThreads {
        batches := batches + [threads];
        joined := joined + threads;
        threads := [];
      }
      page := page + 1;
    }
    JoinRemainder(batches, joined, threads, totalPages, w);
    if |threads| > 0 {
      batches := batches + [threads];
    }
  }

  /** The state of the launch loop once pages 1..launched have workers:
      the joined batches and the outstanding workers hold those pages in
      order, fewer than `w` workers are outstanding, and every joined batch
      is full. */
  predicate Launched(batches: seq<seq<int>>, joined: seq<int>, threads: seq<int>, launched: int, w: int) {
    && joined == Concat(batches)
    && joined + threads == Pages(launched)
    && |threads| < w
    && forall b :: 0 <= b < |batches| ==> |batches[b]| == w
  }

  /** Launching the worker for `page`, and joining the batch when it is
      full, keeps the loop state. */
  lemma Launch(batches: seq<seq<int>>, joined: seq<int>, threads: seq<int>, page: int, maxThreads: int)
    requires page >= 1 && Launched(batches, joined, threads, page - 1, BatchWidth(maxThreads))
    ensures var t := threads + [page];
            if |t| >= maxThreads then Launched(batches + [t], joined + t, [], page, BatchWidth(maxThreads))
            else Launched(batches, joined, t, page, BatchWidth(maxThreads))
  {
    var t := threads + [page];
    AppendAssoc(joined, threads, [page]);
    if |t| >= maxThreads {
      ConcatSnoc(batches, t);
      AppendNil(joined + t);
    }
  }

  /** Joining the outstanding workers after the loop: the batches hold
      pages 1..totalPages in order, and every batch but the last is full. */
  lemma JoinRemainder(batches: seq<seq<int>>, joined: seq<int>, threads: seq<int>, totalPages: int, w: int)
    requires Launched(batches, joined, threads, if totalPages > 0 then totalPages else 0, w)
    ensures var bs := if |threads| > 0 then batches + [threads] else batches;
            && Concat(bs) == Pages(totalPages)
            && (forall b :: 0 <= b < |bs| ==> 1 <= |bs[b]| <= w)
            && (forall b :: 0 <= b < |bs| - 1 ==> |bs[b]| == w)
  {
    if |threads| > 0 {
      ConcatSnoc(batches, threads);
    } else {
      AppendNil(joined);
    }
  }

  /** Every page in 1..totalPages gets exactly one worker, in increasing
      order, and no other page does. */
  lemma LaunchedOnce(totalPages: int, p: int)
    ensures p in Pages(totalPages) <==> 1 <= p <= totalPages
    ensures forall i, j :: 0 <= i < j < |Pages(totalPages)| ==> Pages(totalPages)[i] < Pages(totalPages)[j]
  {
    var ps := Pages(totalPages);
    forall i | 0 <= i < |ps| ensures ps[i] == i + 1 {
      PagesAt(totalPages, i);
    }
    if 1 <= p <= totalPages {
      assert ps[p - 1] == p;
    }
  }

  /** What each page adds to the results: page p's worker runs with `retry`
      attempts on the replies `workers(p)`. */
  function PageRecords(workers: int -> (nat -> Reply), retry: int, dataField: string): int -> seq<Json> {
    p => Contribution(PageRun(workers(p), retry, dataField, 0))
  }

  /** The shared results list after the workers for `pages` have run, one
      after another; `records(p)` is what page p's worker adds. */
  function Collect(records: int -> seq<Json>, pages: seq<int>): (r: seq<Json>)
    ensures forall x :: x in r ==> exists i :: 0 <= i < |pages| && x in records(pages[i])
  {
    if pages == [] then []
    else Collect(records, pages[..|pages| - 1]) + records(pages[|pages| - 1])
  }

  lemma AppendNil(a: seq<int>)
    ensures a + [] == a
  {
  }

  lemma SplitAt(ps: seq<int>, k: int)
    requires 0 <= k <= |ps|
    ensures ps[..k] + ps[k..] == ps
  {
  }

  /** Running one more worker appends its page's records. */
  lemma CollectStep(records: int -> seq<Json>, ps: seq<int>, j: int)
    requires 0 <= j < |ps|
    ensures Collect(records, ps[..j + 1]) == Collect(records, ps[..j]) + records(ps[j])
  {
    assert ps[..j + 1][..j] == ps[..j];
  }

  /** Running the workers of two consecutive stretches of pages gives their
      results one after the other. */
  lemma {:induction false} CollectAppend(records: int -> seq<Json>, ps: seq<int>, qs: seq<int>)
    ensures Collect(records, ps + qs) == Collect(records, ps) + Collect(records, qs)
    decreases |qs|
  {
    if qs == [] {
      assert ps + qs == ps;
    } else {
      var qs' := qs[..|qs| - 1];
      assert (ps + qs)[..|ps + qs| - 1] == ps + qs';
      CollectAppend(records, ps, qs');
    }
  }

  /** A record is in the results exactly when some launched page's worker
      fetched it: nothing is invented and nothing fetched is lost. */
  lemma {:induction false} CollectMembers(records: int -> seq<Json>, ps: seq<int>, x: Json)
    ensures x in Collect(records, ps) <==> exists i :: 0 <= i < |ps| && x in records(ps[i])
    decreases |ps|
  {
    if ps != [] {
      var ps' := ps[..|ps| - 1];
      CollectMembers(records, ps', x);
      if x in records(ps[|ps| - 1]) {
        assert exists i :: 0 <= i < |ps| && x in records(ps[i]);
      }
      if exists i :: 0 <= i < |ps| && x in records(ps[i]) {
        var i :| 0 <= i < |ps| && x in records(ps[i]);
        if i < |ps| - 1 {
          assert ps'[i] == ps[i];
        }
      }
    }
  }

  /** A page's records arrive together and in the order of its response:
      they sit between the records of the pages launched before it and
      those of the pages launched after it. */
  lemma PageIsContiguous(records: int -> seq<Json>, ps: seq<int>, i: int)
    requires 0 <= i < |ps|
    ensures Collect(records, ps) == Collect(records, ps[..i]) + records(ps[i]) + Collect(records, ps[i + 1..])
  {
    SplitAt(ps, i + 1);
    CollectAppend(records, ps[..i + 1], ps[i + 1..]);
    CollectStep(records, ps, i);
  }

  /** A page whose worker gives up or raises (for instance with
      AuthenticationFailed) adds nothing, and the other pages are unaffected. */
  lemma FailedPageIsSkipped(workers: int -> (nat -> Reply), retry: int, dataField: string, ps: seq<int>, i: int)
    requires 0 <= i < |ps|
    requires !PageRun(workers(ps[i]), retry, dataField, 0).Fetched?
    ensures Collect(PageRecords(workers, retry, dataField), ps)
         == Collect(PageRecords(workers, retry, dataField), ps[..i] + ps[i + 1..])
  {
    var records := PageRecords(workers, retry, dataField);
    assert records(ps[i]) == [] by {
      assert records(ps[i]) == Contribution(PageRun(workers(ps[i]), retry, dataField, 0));
    }
    PageIsContiguous(records, ps, i);
    CollectAppend(records, ps[..i], ps[i + 1..]);
  }

  /** Page q of pages 1..n answered with 401 or 403 on its first attempt:
      the results are those of the other pages, in the order this model
      launches them. */
  lemma RefusedPageSkipped(workers: int -> (nat -> Reply), retry: int, dataField: string, n: int, q: int)
    requires retry > 0 && 1 <= q <= n
    requires workers(q)(0).Response? && (workers(q)(0).status == 401 || workers(q)(0).status == 403)
    ensures q <= |Pages(n)|
    ensures Collect(PageRecords(workers, retry, dataField), Pages(n))
         == Collect(PageRecords(workers, retry, dataField), Pages(n)[..q - 1] + Pages(n)[q..])
  {
    var ps := Pages(n);
    PagesAt(n, q - 1);
    AuthFailureIsFinal(workers(q), retry, dataField, 0);
    FailedPageIsSkipped(workers, retry, dataField, ps, q - 1);
  }

  /** When every page comes back full with `perPage` records, the results
      hold `perPage` records per page. */
  lemma {:induction false} FullPagesCount(records: int -> seq<Json>, ps: seq<int>, perPage: nat)
    requires forall i :: 0 <= i < |ps| ==> |records(ps[i])| == perPage
    ensures |Collect(records, ps)| == perPage * |ps|
    decreases |ps|
  {
    if ps != [] {
      var ps' := ps[..|ps| - 1];
      assert forall i :: 0 <= i < |ps'| ==> ps'[i] == ps[i];
      FullPagesCount(records, ps', perPage);
      assert perPage * |ps| == perPage * |ps'| + perPage;
    }
  }

  /** When each of the pages 1..n comes back with `perPage` records,
      running their workers collects `perPage * n` records. */
  lemma FullPagesTotal(records: int -> seq<Json>, n: int, perPage: nat)
    requires n >= 0
    requires forall q :: 1 <= q <= n ==> |records(q)| == perPage
    ensures |Collect(records, Pages(n))| == perPage * n
  {
    var ps := Pages(n);
    forall i | 0 <= i < |ps| ensures |records(ps[i])| == perPage {
      PagesAt(n, i);
      var q := ps[i];
      assert 1 <= q <= n;
    }
    FullPagesCount(records, ps, perPage);
  }

  /** The final list comprehension: every collected record, flattened when
      requested. */
  function Assemble(results: seq<Json>, flatten: bool): (out: seq<Json>)
    ensures |out| == |results|
    ensures forall i :: 0 <= i < |out| ==>
              out[i] == if flatten then JObj(Flattener.Flatten(results[i])) else results[i]
  {
    if flatten then seq(|results|, i requires 0 <= i < |results| => JObj(Flattener.Flatten(results[i])))
    else results
  }

  /** With flattening on, every returned record is a dict of scalars, and
      flattening the output again changes nothing. */
  lemma AssembledAreFlat(results: seq<Json>)
    ensures forall i :: 0 <= i < |results| ==>
              Assemble(results, true)[i].JObj? && IsFlatDict(Assemble(results, true)[i].fields)
    ensures Assemble(Assemble(results, true), true) == Assemble(results, true)
  {
    forall i | 0 <= i < |results|
      ensures IsFlatDict(Flattener.Flatten(results[i]))
      ensures Flattener.Flatten(JObj(Flattener.Flatten(results[i]))) == Flattener.Flatten(results[i])
    {
      Flattener.FlattenIsFlat(results[i]);
      Flattener.FlattenIdempotent(results[i]);
    }
  }
}
