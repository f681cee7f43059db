# Sentry API client core, modelled in Dafny

The repository holds two Python scripts, `sentry_cli.py` and `sentry_client.py`, that talk to
the Sentry REST API. Both contain a `SentryClient` class. This project models the logic that
sits under those HTTP calls and proves what it promises:

- **The cursor pagination walker** `_get_paginated`. The two files carry identical copies of
  it, so one model (`Pagination`) covers both. It fetches a page and appends its items. It
  follows the `next` link only when that link's `results` is `"true"`. It sends the caller's
  params on the first request only. It stops once the continuation counter reaches a truthy
  `max_pages`. A failed request aborts the whole call.
- **The request shapes of `SentryClient`** (`Api`): the headers fixed in `__init__`, the
  issues route chosen by `list_issues` and its params dict, the paginate dispatch of
  `list_issue_events`, and the payload of `update_issue`.
- **The issue search of `fetch-issues`** (`IssueSearch`): the server-side query built from
  environment, start, end and raw query; the fetch; and the local case-insensitive text
  filter `matches_text_filter`.

The server is a parameter. It is a finite script of replies (`Http.Reply`): the k-th request
of a call gets the k-th reply, which is either a page of items with its `next` link or a
non-2xx status. `NoReply` is the model's answer to a request made after the script has run
out: it marks an exhausted script, not a failure the program reports (see "## Left out").
Every operation that talks to the server returns the requests it made, so request counts and
request shapes can be stated.

Python truthiness is modelled explicitly:
- `while url:` stops on an empty URL.
- `if max_pages and ...` treats `None` and `0` as unbounded. A negative `max_pages` is truthy,
  so the walk stops after its first page.
- `if status:` and `if query:` skip `""`. The other payload keys are tested with `is not None`,
  so `False` and `""` are still sent.

`Pagination.GetPaginated` is the loop itself. It is proved equal to the recursive
specification `Pagination.Walk`. The lemmas then describe `Walk` without reference to the loop:
- the items are the in-order concatenation of the fetched pages;
- each later request is the previous page's `next` link, sent with no params;
- a failure returns no items;
- the number of requests is `min(max(N, 1), chain + 1)` for a truthy `max_pages = N`, and
  `chain + 1` otherwise, where `chain` is the number of leading pages that say there is more.

That count shows `max_pages = N > 0` never lets more than N requests through.

Two details of the code that the model keeps:
- `_get_paginated` sends exactly the params it is given. `limit` is among them only because
  `list_issue_events` puts it there; the walker adds no params of its own.
- A start or end date that does not parse makes `datetime.fromisoformat` raise before the
  `try` block of `cmd_fetch_issues`. The model reports this as `InvalidDate`, before any
  request is made.

## Model

| member | source | states |
|---|---|---|
| `Http.HasMore` | sentry_cli.py:196-197 | the continuation test: a `next` link is present and its `results` attribute is exactly `"true"`; `WalkRequests` and `WalkStops` state that the walk follows a link exactly when this holds and `max_pages` allows it |
| `Http.Get` | sentry_client.py:39-43 | one `_get` followed by `.json()`: the first reply's items on a page, its status on an error, `NoReply` on an empty script; `Api.ListIssues` and `Api.SingleFetchIsOnePage` state its use |
| `Pagination.Walk` | sentry_cli.py:175-207 | the walk as a recursive function of the server script, counter and `max_pages`: the specification `GetPaginated` is proved equal to, characterised by `WalkRequests`, `WalkItems`, `WalkFailure`, `WalkStops` and `RequestCount` |
| `Pagination.GetPaginated` | sentry_cli.py:175-207 | the loop's result and the requests it made are exactly those of the walk specification, for every server script, start URL, params and `max_pages` |
| `Pagination.WalkRequests` | sentry_cli.py:191-203 | no request at all iff the URL is empty; the first request carries the caller's URL and params; every later request is the previous page's has-more `next` link with `params = None` and a non-empty URL; a continuation was followed only while the counter was below a truthy `max_pages` |
| `Pagination.WalkItems` | sentry_cli.py:188-193 | a successful walk only fetched pages, and its result is the concatenation of their item lists in fetch order: nothing reordered, dropped or deduplicated |
| `Pagination.WalkFailure` | sentry_cli.py:169-193 | the walk fails iff its last request got a non-2xx status or no reply; the error is that status (or `NoReply`), and no items are returned whatever earlier pages delivered |
| `Pagination.WalkStops` | sentry_client.py:61-75 | a successful walk stopped after a page with no `next` link whose `results == "true"`, or with an empty next URL, or when the counter reached a truthy `max_pages` (with `WalkRequests` this makes "follows a continuation" an iff) |
| `Pagination.RunLength` | sentry_client.py:66-68 | the has-more chain length: every reply before it continues to a non-empty URL, and the reply at it does not |
| `Pagination.RequestCount` | sentry_client.py:66-75 | a walk that meets no failure makes `min(max(N - count, 1), chain + 1)` requests under a truthy `max_pages = N` and `chain + 1` otherwise, and returns the concatenated items of exactly those pages |
| `Pagination.MaxPagesExact` | sentry_cli.py:200-203 | with `max_pages = N > 0` and at least N pages reporting more, exactly N requests are made and their N pages' items are returned |
| `Pagination.MaxPagesBound` | sentry_client.py:70-73 | for `N > 0` the number of requests is `min(N, chain + 1)`; for `max_pages` of `None` or `0` the chain is followed to its last page |
| `Pagination.NegativeMaxPages` | sentry_cli.py:202-203 | a negative `max_pages` stops the walk after the first page, with exactly one request |
| `Pagination.FailureDiscardsPages` | sentry_client.py:39-63 | a failure at request k + 1, after k pages that all said to go on, is the result of the whole call, after exactly k + 1 requests |
| `Pagination.TwoPageExample` | sentry_cli.py:191-205 | pages of 100 and 40 items with `max_pages = 2`: two requests, the second with no params, and 140 items in page order |
| `Pagination.OnePageExample` | sentry_cli.py:196-203 | `max_pages = 1` with a has-more link: one request, the link is never followed, 100 items |
| `Text.ContainsIsSubstring` | sentry_cli.py:358 | the string search `needle in hay` holds iff the needle occurs at some offset of the haystack |
| `Text.LowerIdempotent` | sentry_cli.py:355 | folding a string twice is folding it once |
| `Text.SplitJoin` | sentry_cli.py:404 | splitting `" ".join(parts)` on spaces gives back the parts when none holds a space |
| `IssueSearch.Matches` | sentry_cli.py:353-372 | `matches_text_filter`: the early-return chain over title, culprit, metadata value and metadata type, each lowercased and searched for the lowercased filter; `MatchesIff` gives its meaning as a substring test |
| `IssueSearch.MatchesIff` | sentry_cli.py:353-372 | an issue matches iff the lowercased filter is a substring of the lowercased title, culprit, metadata value or metadata type, with missing fields read as "" |
| `IssueSearch.MatchesIgnoresFilterCase` | sentry_cli.py:355 | the filter and its lowercased form select the same issues |
| `IssueSearch.EmptyFilterMatchesAll` | sentry_cli.py:358-359 | the empty filter matches every issue, including one with no fields at all |
| `IssueSearch.FilterIssues` | sentry_cli.py:421 | the filtered list keeps its issues in their original order, never grows, and holds each matching issue exactly as often as the input does and no other issue |
| `IssueSearch.FilterKeepsExactlyMatches` | sentry_cli.py:421 | an issue is in the filtered list iff it is in the input and matches |
| `IssueSearch.FilterEmptyKeepsAll` | sentry_cli.py:419-421 | filtering by "" returns the list unchanged |
| `IssueSearch.FilterIdempotent` | sentry_cli.py:421 | filtering twice by the same text is filtering once |
| `IssueSearch.ApplyTextFilter` | sentry_cli.py:419-421 | `if args.text_filter:` applies the local filter, otherwise keeps the fetched list; `SkippedFilterAgrees` shows the two branches agree on an empty filter |
| `IssueSearch.SkippedFilterAgrees` | sentry_cli.py:419-424 | skipping the filter for an empty `--text-filter` gives the same list as filtering by it |
| `IssueSearch.FilterExample` | sentry_cli.py:353-372 | of "Null pointer in Foo" and "Timeout", the filter "null" keeps only the first |
| `IssueSearch.QueryParts` | sentry_cli.py:384-402 | the fragments `environment:<e>`, `firstSeen:><start>Z`, `firstSeen:<<end>Z` and the raw query, each present only when its argument is truthy, in that order; `ComposeQueryRoundTrip` and `ComposeQueryAll` state the order |
| `IssueSearch.ComposeQuery` | sentry_cli.py:384-404 | the query of `cmd_fetch_issues`: a date error when a start or end does not parse, otherwise the space-join of the fragments or `None` without any; `ComposeQueryErrors`, `ComposeQueryAbsent` and `ComposeQueryRoundTrip` state each case |
| `IssueSearch.ComposeQueryErrors` | sentry_cli.py:391-398 | query composition fails iff a truthy start or end date does not parse, and names the start when both are bad |
| `IssueSearch.ComposeQueryAbsent` | sentry_cli.py:404 | the query is `None` iff environment, start, end and raw query are all falsy |
| `IssueSearch.ComposeQueryRoundTrip` | sentry_cli.py:384-404 | the query splits on spaces back into the fragments environment, start, end, raw query in that order, when no fragment holds a space |
| `IssueSearch.ComposeQueryAll` | sentry_cli.py:386-402 | with all criteria given, the query is `environment:<e> firstSeen:><start>Z firstSeen:<<end>Z <raw>` |
| `IssueSearch.ComposeQueryExample` | sentry_cli.py:387-404 | environment "production" with raw query "is:unresolved" gives "environment:production is:unresolved" |
| `IssueSearch.BuildQuery` | sentry_cli.py:384-404 | appending the fragments step by step and joining them yields the composed query, or the date error |
| `IssueSearch.FetchIssues` | sentry_cli.py:384-421 | a bad date fails with no request made; otherwise exactly one issues request is sent, with the composed query and the stats period defaulting to "24h"; a failed fetch returns its error and no issues; a successful one returns the fetched issues after the local text filter |
| `Api.NewClient` | sentry_client.py:22-32 | `SentryClient(auth_token, org_slug, base_url)` with `base_url` defaulting to `https://sentry.io/api/0`, the default `main` relies on (sentry_cli.py:595) |
| `Api.Headers` | sentry_client.py:34-37 | the client's headers are exactly `Authorization` and `Content-Type` |
| `Api.BearerToken` | sentry_client.py:34-37 | `Authorization` is `"Bearer "` followed by the token, which reads back from it, and `Content-Type` is `application/json` |
| `Api.IssuesRoutesDistinct` | sentry_client.py:116-119 | the project issues route and the organisation issues route are never the same URL |
| `Api.ProjectRouteInjective` | sentry_client.py:117 | for a fixed client, different project slugs give different issues URLs |
| `Api.IssuesRequestShape` | sentry_client.py:116-128 | the project route iff the slug is truthy; params always hold `statsPeriod`, `limit` and `sort` with the given values, and hold `query` iff the query is truthy |
| `Api.IssuesRequest` | sentry_client.py:116-128 | the request `list_issues` sends: route by slug truthiness, `statsPeriod`, `limit`, `sort` always and `query` when truthy; `IssuesRequestShape` states it key by key and `ListIssues` is proved to build it |
| `Api.ListIssues` | sentry_client.py:116-131 | the step-by-step params dict equals the specified issues request, and the result is that of a single GET |
| `Api.EventsRequest` | sentry_client.py:156-157 | the first request of `list_issue_events`: the events route of the issue with params `{limit}`; `ListIssueEvents` and `SingleFetchIsOnePage` state its use |
| `Api.ListIssueEvents` | sentry_client.py:156-163 | with `paginate` the call is the walk from the events route with `{limit}` as first params and the given `max_pages`; without it, exactly one request with `{limit}` and that page's items |
| `Api.SingleFetchIsOnePage` | sentry_cli.py:274-281 | the unpaginated events fetch agrees with a paginated one under `max_pages = 1` |
| `Api.PayloadRoundTrip` | sentry_client.py:193-204 | the payload dict holds exactly the supplied keys (`status` only when truthy, the others whenever not `None`) and decodes back to the arguments, with an empty `status` read as absent |
| `Api.UpdateIssue` | sentry_client.py:192-208 | the PUT targets the issue route; the payload keys are exactly the supplied ones (`status` only when truthy, the others whenever not `None`); the payload decodes back to the arguments; the result is the updated issue or the status |

## Left out

- The HTTP layer (`requests.get`, `requests.put`, `raise_for_status`, `response.links`, `response.json()`): a foreign library. It is replaced by a scripted server; the `Authorization` and `Content-Type` headers are modelled but are not attached to each modelled request.
- `NoReply`: the model answers a request made after the script has run out with `NoReply`, which the program has no counterpart for. In particular, when `max_pages` is falsy and the server keeps answering with a `results="true"` link, `while url:` never exits; the model instead returns `Err(NoReply)` after `|server|` requests, so the non-termination of such an unbounded walk is not captured.
- `requests.get` and `requests.put` are called without a `timeout`, so a request the server never answers blocks the program for ever; that hang is not modelled.
- A 2xx body that is not valid JSON makes `response.json()` raise and abort the call; the script only holds bodies that decode, so this error is not modelled.
- `Http.Params` is a `map`, so the insertion order of the params dict (`statsPeriod`, `limit`, `sort`, then `query`), which fixes the order of the query string, is not captured; only the keys and their values are.
- HTTP statuses: any reply the script marks as an error stands for a non-2xx status. Redirects and the 2xx range itself are not modelled.
- `response.json()` is taken to be a JSON list (or, for `update_issue`, the issue object). A non-list body, which `extend` would treat differently, is not modelled.
- `datetime.fromisoformat(...).isoformat()` is a date library. It is a parameter of the query composer that returns the formatted date, or `None` when the date does not parse.
- `str.lower` is modelled for ASCII letters only; full Unicode case folding is not.
- Issue fields are modelled as optional strings. A JSON `null` used as a title or culprit (which would make `.lower()` raise) and `str()` of a non-string or `null` metadata value (which would read as `"None"`) are not modelled.
- The `sort` choices and the other argument validation are done by `argparse` and are not modelled.
- Config file load and save, `chmod`, the interactive bootstrap, `input()` and `webbrowser` (sentry_cli.py:48-142): filesystem and terminal I/O.
- Argument parsing and command routing in `main` (sentry_cli.py:535-607) and the demo `main` of sentry_client.py: glue.
- All printing: the issue and event summaries, the stack-trace display, the summary totals of `fetch-issues`, `format_timestamp`.
- The other single-GET endpoints (`list_organizations`, `list_projects`, `get_project`, `get_issue`, `get_latest_event`). Each is one `_get` of a fixed URL, the same pattern as `Http.Get`.
