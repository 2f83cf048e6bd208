/**
 * The retry loop of `Paginator.fetch_page`, as a function of the replies the
 * page's worker receives, one per attempt. `replies(k)` is the reply to the
 * worker's attempt number k (counting from 0).
 */
module PageFetch {
  import opened Json
  import opened Protocol

  /** How a page worker ends. `attempts` is the number of requests it made. */
  datatype PageEnd =
    | Fetched(records: seq<Json>, attempts: nat)   // returned after a 200
    | Exhausted(attempts: nat)                     // returned with no attempts left
    | Raised(error: Error, attempts: nat)          // ended by an exception

  /** The elements `list.extend(v)` appends: a list's items, a dict's keys,
      a string's characters; anything else is not iterable. */
  function Iterate(v: Json): (r: Result<seq<Json>>)
    ensures v.JArr? ==> r == Success(v.items)
    ensures v.JObj? ==> r.Success? && |r.value| == |v.fields|
                        && forall i :: 0 <= i < |v.fields| ==> r.value[i] == JStr(v.fields[i].0)
    ensures v.JStr? ==> r.Success? && |r.value| == |v.s|
                        && forall i :: 0 <= i < |v.s| ==> r.value[i] == JStr([v.s[i]])
    ensures IsScalar(v) && !v.JStr? ==> r == Failure(TypeError)
  {
    match v
    case JArr(xs) => Success(xs)
    case JObj(fs) => Success(seq(|fs|, i requires 0 <= i < |fs| => JStr(fs[i].0)))
    case JStr(s) => Success(seq(|s|, i requires 0 <= i < |s| => JStr([s[i]])))
    case _ => Failure(TypeError)
  }

  /** `data.get(self.data_field, []) if self.data_field else data`, then the
      elements `results.extend` appends. */
  function Extract(body: Json, dataField: string): (r: Result<seq<Json>>)
    ensures dataField == "" ==> r == Iterate(body)
    ensures dataField != "" && !body.JObj? ==> r == Failure(AttributeError)
    ensures dataField != "" && body.JObj? && !HasKey(body.fields, dataField) ==> r == Success([])
    ensures dataField != "" && body.JObj? && HasKey(body.fields, dataField) ==>
              r == Iterate(Get(body.fields, dataField))
  {
    if dataField == "" then Iterate(body)
    else if !body.JObj? then Failure(AttributeError)
    else
      match Lookup(body.fields, dataField)
      case Some(v) => Iterate(v)
      case None => Success([])
  }

  /** A reply that costs one attempt and leads to another: a network error,
      or any status other than 200, 401 and 403. */
  predicate Transient(a: Reply) {
    a.NetErr? || (a.status != 200 && a.status != 401 && a.status != 403)
  }

  /** How the worker ends on a decisive (non-transient) reply to its n-th
      request. */
  function Decide(a: Reply, dataField: string, n: nat): PageEnd
    requires !Transient(a)
  {
    if a.status == 200 then
      match Extract(a.body, dataField)
      case Success(recs) => Fetched(recs, n)
      case Failure(e) => Raised(e, n)
    else Raised(AuthenticationFailed(a.status), n)
  }

  /** The loop `while retries > 0`, entered with `retries` attempts left and
      `k` attempts already made. */
  function PageRun(replies: nat -> Reply, retries: int, dataField: string, k: nat): (e: PageEnd)
    ensures e.attempts >= k
    ensures e.Fetched? ==> e.attempts > k && replies(e.attempts - 1).Response?
                           && replies(e.attempts - 1).status == 200
    ensures e.Raised? && e.error.AuthenticationFailed? ==>
              e.attempts > k && replies(e.attempts - 1).Response?
              && replies(e.attempts - 1).status == e.error.status
              && (e.error.status == 401 || e.error.status == 403)
    decreases if retries > 0 then retries else 0
  {
    if retries <= 0 then Exhausted(k)
    else if Transient(replies(k)) then PageRun(replies, retries - 1, dataField, k + 1)
    else Decide(replies(k), dataField, k + 1)
  }

  /** What the page adds to the shared results list. */
  function Contribution(e: PageEnd): seq<Json> {
    if e.Fetched? then e.records else []
  }

  /** The attempt bound: a worker entered with `retries` attempts left makes
      at least one and at most `retries` further requests, and none when
      `retries` is not positive. */
  lemma {:induction false} AttemptsBounded(replies: nat -> Reply, retries: int, dataField: string, k: nat)
    ensures retries <= 0 ==> PageRun(replies, retries, dataField, k) == Exhausted(k)
    ensures retries > 0 ==> k < PageRun(replies, retries, dataField, k).attempts <= k + retries
    decreases if retries > 0 then retries else 0
  {
    if retries > 0 && Transient(replies(k)) {
      AttemptsBounded(replies, retries - 1, dataField, k + 1);
    }
  }

  /** The worker gives up exactly when every one of its attempts met a
      transient failure, and then it has used all of them. */
  lemma {:induction false} ExhaustedIff(replies: nat -> Reply, retries: int, dataField: string, k: nat)
    ensures PageRun(replies, retries, dataField, k).Exhausted?
        <==> forall j :: k <= j < k + retries ==> Transient(replies(j))
    ensures PageRun(replies, retries, dataField, k).Exhausted? ==>
              PageRun(replies, retries, dataField, k).attempts == if retries > 0 then k + retries else k
    decreases if retries > 0 then retries else 0
  {
    if retries > 0 {
      if Transient(replies(k)) {
        ExhaustedIff(replies, retries - 1, dataField, k + 1);
        assert (forall j :: k <= j < k + retries ==> Transient(replies(j)))
           <==> (forall j :: k + 1 <= j < k + 1 + (retries - 1) ==> Transient(replies(j)));
      } else {
        assert !Transient(replies(k));
      }
    }
  }

  /** A worker that does not give up stops at its first decisive reply: every
      earlier reply was transient, and that reply alone decides the outcome. */
  lemma {:induction false} StopsAtFirstDecisive(replies: nat -> Reply, retries: int, dataField: string, k: nat)
    requires !PageRun(replies, retries, dataField, k).Exhausted?
    ensures var e := PageRun(replies, retries, dataField, k);
            && k < e.attempts <= k + retries
            && (forall j :: k <= j < e.attempts - 1 ==> Transient(replies(j)))
            && !Transient(replies(e.attempts - 1))
            && e == Decide(replies(e.attempts - 1), dataField, e.attempts)
    decreases if retries > 0 then retries else 0
  {
    if Transient(replies(k)) {
      StopsAtFirstDecisive(replies, retries - 1, dataField, k + 1);
    }
  }

  /** A 401 or 403 ends the worker with AuthenticationFailed at once, and the
      page contributes nothing. */
  lemma AuthFailureIsFinal(replies: nat -> Reply, retries: int, dataField: string, k: nat)
    requires retries > 0
    requires replies(k).Response? && (replies(k).status == 401 || replies(k).status == 403)
    ensures PageRun(replies, retries, dataField, k) == Raised(AuthenticationFailed(replies(k).status), k + 1)
    ensures Contribution(PageRun(replies, retries, dataField, k)) == []
  {
  }

  /** A 200 after some transient failures adds exactly the page's records,
      and no further attempt is made. */
  lemma {:induction false} SuccessAfterRetries(replies: nat -> Reply, retries: int, dataField: string, n: nat, body: Json)
    requires 0 <= n < retries
    requires forall j :: 0 <= j < n ==> Transient(replies(j))
    requires replies(n) == Response(200, body)
    requires Extract(body, dataField).Success?
    ensures PageRun(replies, retries, dataField, 0) == Fetched(Extract(body, dataField).value, n + 1)
  {
    var e := PageRun(replies, retries, dataField, 0);
    ExhaustedIff(replies, retries, dataField, 0);
    assert !Transient(replies(n));
    assert !e.Exhausted?;
    StopsAtFirstDecisive(replies, retries, dataField, 0);
    assert e.attempts - 1 == n;
  }

  /** With five attempts (the source's `self.retry`), a page that answers
      500 every time is given up after exactly five requests and contributes
      no records. */
  lemma FiveServerErrors(replies: nat -> Reply, dataField: string)
    requires forall j :: replies(j) == Response(500, JNull)
    ensures PageRun(replies, 5, dataField, 0) == Exhausted(5)
    ensures Contribution(PageRun(replies, 5, dataField, 0)) == []
  {
    ExhaustedIff(replies, 5, dataField, 0);
  }
}
