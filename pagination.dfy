/**
 * The cursor pagination walker `SentryClient._get_paginated`, which both clients
 * carry in identical form.
 *
 * `Walk` is the specification: the pages a call fetches and what it returns, as a
 * recursive function of the server script. `GetPaginated` is the loop itself,
 * proved equal to `Walk`. The lemmas below state what `Walk` promises in terms
 * that do not mention the loop: the result is the in-order concatenation of the
 * fetched pages, each later request follows the previous page's `next` link
 * without params, a failure anywhere yields no items, and the number of requests
 * is fixed by the has-more chain and `max_pages`.
 */
module Pagination {
  import opened Http

  /** What one call returns, and the requests it made in order. */
  datatype Trace<T> = Trace(result: Result<seq<T>>, log: seq<Request>)

  /** Python truthiness of `max_pages`: `None` and `0` both mean unbounded. */
  predicate Bounded(maxPages: Option<int>) {
    maxPages.Some? && maxPages.value != 0
  }

  function Prepend<T>(items: seq<T>, r: Result<seq<T>>): Result<seq<T>> {
    if r.Ok? then Ok(items + r.value) else r
  }

  /** The trace of a call that has already collected `items` with requests `log` and then behaves as `rest`. */
  function Resume<T>(items: seq<T>, log: seq<Request>, rest: Trace<T>): Trace<T> {
    Trace(Prepend(items, rest.result), log + rest.log)
  }

  lemma ResumeResume<T>(a: seq<T>, la: seq<Request>, b: seq<T>, lb: seq<Request>, rest: Trace<T>)
    ensures Resume(a, la, Resume(b, lb, rest)) == Resume(a + b, la + lb, rest)
  {
    if rest.result.Ok? {
      assert a + (b + rest.result.value) == (a + b) + rest.result.value;
    }
    assert la + (lb + rest.log) == (la + lb) + rest.log;
  }

  lemma ResumeEmpty<T>(t: Trace<T>)
    ensures Resume([], [], t) == t
  {
    if t.result.Ok? {
      assert [] + t.result.value == t.result.value;
    }
    assert [] + t.log == t.log;
  }

  /**
   * The walk from URL `url` with `params`, after `count` continuations, against
   * the server script `server`. `while url:` stops on an empty URL; a page whose
   * `next` link has `results == "true"` is followed unless `max_pages` is truthy
   * and the incremented counter has reached it.
   */
  function Walk<T>(server: seq<Reply<T>>, url: string, params: Option<Params>, count: int, maxPages: Option<int>): Trace<T>
    decreases |server|
  {
    if url == "" then Trace(Ok([]), [])
    else if server == [] then Trace(Err(NoReply), [Request(url, params)])
    else match server[0]
      case Error(code) => Trace(Err(HttpStatus(code)), [Request(url, params)])
      case Page(items, next) =>
        if HasMore(next) && !(Bounded(maxPages) && count + 1 >= maxPages.value) then
          Resume(items, [Request(url, params)], Walk(server[1..], next.value.url, None, count + 1, maxPages))
        else
          Trace(Ok(items), [Request(url, params)])
  }

  /** `_get_paginated(url, params, max_pages)` against the server script `server`. */
  method GetPaginated<T>(server: seq<Reply<T>>, url: string, params: Option<Params>, maxPages: Option<int>)
    returns (result: Result<seq<T>>, log: seq<Request>)
    ensures Trace(result, log) == Walk(server, url, params, 0, maxPages)
  {
    var allItems: seq<T> := [];
    var pageCount := 0;
    var current, currentParams := url, params;
    log := [];
    assert server[0..] == server;
    ResumeEmpty(Walk(server, url, params, 0, maxPages));
    while current != ""
      invariant |log| <= |server|
      invariant Walk(server, url, params, 0, maxPages)
                == Resume(allItems, log, Walk(server[|log|..], current, currentParams, pageCount, maxPages))
      decreases |server| - |log|
    {
      var k := |log|;
      var request := Request(current, currentParams);
      log := log + [request];
      if k == |server| {
        return Err(NoReply), log;
      }
      assert server[k..][0] == server[k] && server[k..][1..] == server[k + 1..];
      match server[k]
      case Error(code) =>
        return Err(HttpStatus(code)), log;
      case Page(items, next) =>
        ResumeResume(allItems, log[..k], items, [request], Walk(server[k + 1..], if next.Some? then next.value.url else "", None, pageCount + 1, maxPages));
        assert log[..k] + [request] == log;
        allItems := allItems + items;
        if HasMore(next) {
          current := next.value.url;
          currentParams := None;
          pageCount := pageCount + 1;
          if Bounded(maxPages) && pageCount >= maxPages.value {
            return Ok(allItems), log;
          }
        } else {
          return Ok(allItems), log;
        }
    }
    assert allItems + [] == allItems && log + [] == log;
    return Ok(allItems), log;
  }

  /** The items of the pages among `replies`, concatenated in order. */
  function Concat<T>(replies: seq<Reply<T>>): seq<T>
    decreases |replies|
  {
    if replies == [] then []
    else (if replies[0].Page? then replies[0].items else []) + Concat(replies[1..])
  }

  /** `request` is the continuation that `reply` told the walker to fetch next. */
  predicate Follows<T>(reply: Reply<T>, request: Request) {
    reply.Page? && HasMore(reply.next) && request == Request(reply.next.value.url, None)
  }

  /**
   * The requests of a walk: none exactly when the URL is empty; the first one
   * carries the caller's URL and params; every later one is the `next` link of
   * the page before it, sent with no params; and a continuation was only
   * followed while `max_pages` allowed it.
   */
  lemma {:induction false} WalkRequests<T>(server: seq<Reply<T>>, url: string, params: Option<Params>, count: int, maxPages: Option<int>)
    ensures var t := Walk(server, url, params, count, maxPages);
      && (t.log == [] <==> url == "")
      && |t.log| <= |server| + 1
      && (t.log != [] ==> t.log[0] == Request(url, params))
      && (forall i :: 1 <= i < |t.log| ==> Follows(server[i - 1], t.log[i]) && t.log[i].url != "")
      && (Bounded(maxPages) && |t.log| >= 2 ==> count + |t.log| - 1 < maxPages.value)
    decreases |server|
  {
    if url != "" && server != [] && server[0].Page? && HasMore(server[0].next)
       && !(Bounded(maxPages) && count + 1 >= maxPages.value)
    {
      var next := server[0].next.value.url;
      var rest := Walk(server[1..], next, None, count + 1, maxPages);
      WalkRequests(server[1..], next, None, count + 1, maxPages);
      var t := Walk(server, url, params, count, maxPages);
      assert t.log == [Request(url, params)] + rest.log;
      forall i | 1 <= i < |t.log|
        ensures Follows(server[i - 1], t.log[i]) && t.log[i].url != ""
      {
        assert t.log[i] == rest.log[i - 1];
        if i >= 2 {
          assert server[1..][i - 2] == server[i - 1];
        }
      }
    }
  }

  /**
   * A successful walk returns exactly the items of the pages it fetched,
   * concatenated in fetch order: nothing is reordered, dropped or deduplicated.
   */
  lemma {:induction false} WalkItems<T>(server: seq<Reply<T>>, url: string, params: Option<Params>, count: int, maxPages: Option<int>)
    ensures var t := Walk(server, url, params, count, maxPages);
      t.result.Ok? ==>
        && |t.log| <= |server|
        && (forall i :: 0 <= i < |t.log| ==> server[i].Page?)
        && t.result.value == Concat(server[..|t.log|])
    decreases |server|
  {
    var t := Walk(server, url, params, count, maxPages);
    if url != "" && server != [] && server[0].Page? {
      assert server[..1][1..] == [];
      assert Concat(server[..1]) == server[0].items + Concat(server[..1][1..]);
      if HasMore(server[0].next) && !(Bounded(maxPages) && count + 1 >= maxPages.value) {
        var next := server[0].next.value.url;
        var rest := Walk(server[1..], next, None, count + 1, maxPages);
        WalkItems(server[1..], next, None, count + 1, maxPages);
        if t.result.Ok? {
          var n := |t.log|;
          assert t.log == [Request(url, params)] + rest.log;
          assert server[..n][1..] == server[1..][..n - 1];
          forall i | 0 <= i < n ensures server[i].Page? {
            if i > 0 {
              assert server[1..][i - 1] == server[i];
            }
          }
        }
      }
    }
  }

  /**
   * A walk fails exactly when its last request failed: that request got a
   * non-2xx status or no reply at all. A failure carries no items, however many
   * pages had already succeeded.
   */
  lemma {:induction false} WalkFailure<T>(server: seq<Reply<T>>, url: string, params: Option<Params>, count: int, maxPages: Option<int>)
    ensures var t := Walk(server, url, params, count, maxPages);
      && (t.result.Err? <==> t.log != [] && (|t.log| > |server| || server[|t.log| - 1].Error?))
      && (t.result.Err? && |t.log| > |server| ==> t.result.error == NoReply)
      && (t.result.Err? && |t.log| <= |server| ==> t.result.error == HttpStatus(server[|t.log| - 1].status))
    decreases |server|
  {
    WalkRequests(server, url, params, count, maxPages);
    if url != "" && server != [] && server[0].Page? && HasMore(server[0].next)
       && !(Bounded(maxPages) && count + 1 >= maxPages.value)
    {
      var next := server[0].next.value.url;
      var rest := Walk(server[1..], next, None, count + 1, maxPages);
      WalkFailure(server[1..], next, None, count + 1, maxPages);
      var t := Walk(server, url, params, count, maxPages);
      assert t.log == [Request(url, params)] + rest.log;
      if rest.log != [] && |t.log| <= |server| {
        assert server[1..][|rest.log| - 1] == server[|t.log| - 1];
      }
    }
  }

  /**
   * Why a successful walk stopped: the last page it fetched has no `next` link
   * with `results == "true"`, or that link's URL is empty, or the counter has
   * reached a truthy `max_pages`. Together with `WalkRequests` this says that a
   * continuation is followed if and only if none of these holds.
   */
  lemma {:induction false} WalkStops<T>(server: seq<Reply<T>>, url: string, params: Option<Params>, count: int, maxPages: Option<int>)
    ensures var t := Walk(server, url, params, count, maxPages);
      t.result.Ok? && 0 < |t.log| <= |server| ==>
        var last := server[|t.log| - 1];
        last.Page? &&
        (!HasMore(last.next) || last.next.value.url == ""
         || (Bounded(maxPages) && count + |t.log| >= maxPages.value))
    decreases |server|
  {
    if url != "" && server != [] && server[0].Page? && HasMore(server[0].next)
       && !(Bounded(maxPages) && count + 1 >= maxPages.value)
    {
      var next := server[0].next.value.url;
      var rest := Walk(server[1..], next, None, count + 1, maxPages);
      WalkStops(server[1..], next, None, count + 1, maxPages);
      var t := Walk(server, url, params, count, maxPages);
      assert t.log == [Request(url, params)] + rest.log;
      if rest.log != [] && |t.log| <= |server| {
        assert server[1..][|rest.log| - 1] == server[|t.log| - 1];
      }
    }
  }

  /** A reply that tells the walker to go on to a non-empty URL. */
  predicate Continues<T>(reply: Reply<T>) {
    reply.Page? && HasMore(reply.next) && reply.next.value.url != ""
  }

  /** The length of the has-more chain: how many leading replies continue. */
  function RunLength<T>(server: seq<Reply<T>>): (n: nat)
    ensures n <= |server|
    ensures forall i :: 0 <= i < n ==> Continues(server[i])
    ensures n < |server| ==> !Continues(server[n])
    decreases |server|
  {
    if server != [] && Continues(server[0]) then 1 + RunLength(server[1..]) else 0
  }

  function Min(a: int, b: int): int { if a <= b then a else b }

  function Max(a: int, b: int): int { if a >= b then a else b }

  /**
   * How many requests a walk makes after `count` continuations when its chain of
   * continuing pages has length `run`: the chain plus the page that ends it,
   * cut at `max_pages - count` when `max_pages` is truthy (and at one page when
   * that difference is not positive).
   */
  function PagesFetched(count: int, maxPages: Option<int>, run: nat): nat {
    if Bounded(maxPages) then Min(Max(maxPages.value - count, 1), run + 1) else run + 1
  }

  lemma ConcatOne<T>(r: Reply<T>)
    requires r.Page?
    ensures Concat([r]) == r.items
  {
    assert [r][1..] == [];
  }

  /**
   * The number of requests and the result of a walk that meets no failure:
   * either the chain ends in a page the server did answer, or `max_pages` cuts
   * the walk before the chain ends.
   */
  lemma {:induction false} RequestCount<T>(server: seq<Reply<T>>, url: string, params: Option<Params>, count: int, maxPages: Option<int>)
    requires url != ""
    requires || (RunLength(server) < |server| && server[RunLength(server)].Page?)
             || (Bounded(maxPages) && Max(maxPages.value - count, 1) <= RunLength(server))
    ensures var n := PagesFetched(count, maxPages, RunLength(server));
      var t := Walk(server, url, params, count, maxPages);
      && n <= |server|
      && |t.log| == n
      && t.result == Ok(Concat(server[..n]))
    decreases |server|
  {
    var run := RunLength(server);
    var n := PagesFetched(count, maxPages, run);
    assert server != [] && server[0].Page?;
    ConcatOne(server[0]);
    assert server[..1] == [server[0]];
    var next := server[0].next;
    if HasMore(next) && !(Bounded(maxPages) && count + 1 >= maxPages.value) {
      var rest := Walk(server[1..], next.value.url, None, count + 1, maxPages);
      if next.value.url == "" {
        assert rest == Trace(Ok([]), []);
        assert server[0].items + [] == server[0].items;
      } else {
        assert RunLength(server[1..]) == run - 1;
        if run - 1 < |server| - 1 {
          assert server[1..][run - 1] == server[run];
        }
        RequestCount(server[1..], next.value.url, None, count + 1, maxPages);
        var m := PagesFetched(count + 1, maxPages, run - 1);
        assert n == m + 1;
        assert server[..n][1..] == server[1..][..m];
        assert server[..n] == [server[0]] + server[..n][1..];
      }
    }
  }

  /** With `max_pages = N > 0` and a chain of at least N continuing pages, exactly N requests are made. */
  lemma MaxPagesExact<T>(server: seq<Reply<T>>, url: string, params: Option<Params>, n: int)
    requires url != "" && 0 < n <= RunLength(server)
    ensures var t := Walk(server, url, params, 0, Some(n));
      |t.log| == n && t.result == Ok(Concat(server[..n]))
  {
    RequestCount(server, url, params, 0, Some(n));
  }

  /**
   * With `max_pages = N > 0`, a chain ending in an answered page makes
   * min(N, chain + 1) requests; with `max_pages` of `None` or `0` it follows
   * the chain to its last page.
   */
  lemma MaxPagesBound<T>(server: seq<Reply<T>>, url: string, params: Option<Params>, maxPages: Option<int>)
    requires url != ""
    requires RunLength(server) < |server| && server[RunLength(server)].Page?
    requires maxPages.None? || maxPages.value >= 0
    ensures var t := Walk(server, url, params, 0, maxPages);
      var n := if Bounded(maxPages) then Min(maxPages.value, RunLength(server) + 1) else RunLength(server) + 1;
      |t.log| == n && t.result == Ok(Concat(server[..n]))
  {
    RequestCount(server, url, params, 0, maxPages);
  }

  /** A negative `max_pages` is truthy and below 1, so the walk stops after its first page. */
  lemma NegativeMaxPages<T>(server: seq<Reply<T>>, url: string, params: Option<Params>, n: int)
    requires url != "" && n < 0
    requires server != [] && server[0].Page?
    ensures Walk(server, url, params, 0, Some(n)) == Trace(Ok(server[0].items), [Request(url, params)])
  {
    RequestCount(server, url, params, 0, Some(n));
    WalkRequests(server, url, params, 0, Some(n));
    ConcatOne(server[0]);
    assert server[..1] == [server[0]];
  }

  /**
   * A failure at request k + 1, after k pages that all told the walker to go
   * on, is the result of the whole call: no item of the earlier pages escapes.
   */
  lemma {:induction false} FailureDiscardsPages<T>(server: seq<Reply<T>>, url: string, params: Option<Params>, count: int, maxPages: Option<int>, k: nat)
    requires url != ""
    requires k <= RunLength(server) && (k == |server| || server[k].Error?)
    requires Bounded(maxPages) ==> count + k < maxPages.value
    ensures var t := Walk(server, url, params, count, maxPages);
      && |t.log| == k + 1
      && t.result == Err(if k == |server| then NoReply else HttpStatus(server[k].status))
    decreases |server|
  {
    if k > 0 {
      var next := server[0].next.value.url;
      assert RunLength(server[1..]) == RunLength(server) - 1;
      if k - 1 < |server| - 1 {
        assert server[1..][k - 1] == server[k];
      }
      FailureDiscardsPages(server[1..], next, None, count + 1, maxPages, k - 1);
    }
  }

  /** Events with `max_pages = 2`: 100 items and a has-more link, then 40 items and no link; two requests, 140 items. */
  lemma TwoPageExample<T>(page1: seq<T>, page2: seq<T>, url: string, nextUrl: string, params: Option<Params>)
    requires |page1| == 100 && |page2| == 40 && url != "" && nextUrl != ""
    ensures var t := Walk([Page(page1, Some(Link(nextUrl, Some("true")))), Page(page2, None)], url, params, 0, Some(2));
      t == Trace(Ok(page1 + page2), [Request(url, params), Request(nextUrl, None)]) && |t.result.value| == 140
  {
    var server := [Page(page1, Some(Link(nextUrl, Some("true")))), Page(page2, None)];
    assert server[1..] == [Page(page2, None)];
    assert server[1..][1..] == [];
  }

  /** Events with `max_pages = 1` and a has-more link: the link is never followed; one request, 100 items. */
  lemma OnePageExample<T>(page1: seq<T>, url: string, nextUrl: string, params: Option<Params>)
    requires |page1| == 100 && url != ""
    ensures var t := Walk([Page(page1, Some(Link(nextUrl, Some("true"))))], url, params, 0, Some(1));
      t == Trace(Ok(page1), [Request(url, params)]) && |t.result.value| == 100
  {
  }
}
