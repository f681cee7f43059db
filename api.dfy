/**
 * The request shapes of `SentryClient`: the headers fixed at construction, the
 * endpoint URLs, the params of `list_issues`, the dispatch of
 * `list_issue_events`, and the payload of `update_issue`.
 *
 * The client's fields are set once in `__init__` and never updated, so the
 * client is a value.
 */
module Api {
  import opened Http
  import Pagination

  const DefaultBaseUrl := "https://sentry.io/api/0"

  datatype Client = Client(baseUrl: string, authToken: string, orgSlug: string)

  /** `SentryClient(auth_token, org_slug, base_url)`, with `base_url` defaulting to the public Sentry API. */
  function NewClient(authToken: string, orgSlug: string, baseUrl: Option<string>): Client {
    Client(if baseUrl.Some? then baseUrl.value else DefaultBaseUrl, authToken, orgSlug)
  }

  /** The headers `__init__` stores and every request sends. */
  function Headers(c: Client): (h: map<string, string>)
    ensures h.Keys == {"Authorization", "Content-Type"}
  {
    map["Authorization" := "Bearer " + c.authToken, "Content-Type" := "application/json"]
  }

  /** The `Authorization` header is the bearer scheme over the token, and the token reads back from it. */
  lemma BearerToken(c: Client)
    ensures var a := Headers(c)["Authorization"];
      a[..7] == "Bearer " && a[7..] == c.authToken
    ensures Headers(c)["Content-Type"] == "application/json"
  {
    var a := Headers(c)["Authorization"];
    assert a == "Bearer " + c.authToken;
  }

  function ProjectIssuesUrl(c: Client, project: string): string {
    c.baseUrl + "/projects/" + c.orgSlug + "/" + project + "/issues/"
  }

  function OrgIssuesUrl(c: Client): string {
    c.baseUrl + "/organizations/" + c.orgSlug + "/issues/"
  }

  function EventsUrl(c: Client, issueId: string): string {
    c.baseUrl + "/issues/" + issueId + "/events/"
  }

  function IssueUrl(c: Client, issueId: string): string {
    c.baseUrl + "/issues/" + issueId + "/"
  }

  /** The project route and the organisation route never coincide: they part right after the base URL. */
  lemma IssuesRoutesDistinct(c: Client, project: string)
    ensures ProjectIssuesUrl(c, project) != OrgIssuesUrl(c)
  {
    var n := |c.baseUrl|;
    assert ProjectIssuesUrl(c, project)[n + 1] == 'p';
    assert OrgIssuesUrl(c)[n + 1] == 'o';
  }

  /** For a fixed client the project route names its project: different slugs give different URLs. */
  lemma ProjectRouteInjective(c: Client, p: string, q: string)
    requires ProjectIssuesUrl(c, p) == ProjectIssuesUrl(c, q)
    ensures p == q
  {
    var u, v := ProjectIssuesUrl(c, p), ProjectIssuesUrl(c, q);
    var pre := c.baseUrl + "/projects/" + c.orgSlug + "/";
    assert u == pre + p + "/issues/" && v == pre + q + "/issues/";
    assert |p| == |q|;
    assert p == u[|pre|..|pre| + |p|];
    assert q == v[|pre|..|pre| + |q|];
  }

  /**
   * The request `list_issues` sends: the project route when the slug is truthy,
   * the organisation route otherwise; `statsPeriod`, `limit` and `sort` always,
   * and `query` only when it is truthy.
   */
  function IssuesRequest(c: Client, projectSlug: Option<string>, statsPeriod: string, limit: int, sort: string, query: Option<string>): Request {
    var url := if Truthy(projectSlug) then ProjectIssuesUrl(c, projectSlug.value) else OrgIssuesUrl(c);
    var base := map["statsPeriod" := Str(statsPeriod), "limit" := Int(limit), "sort" := Str(sort)];
    Request(url, Some(if Truthy(query) then base["query" := Str(query.value)] else base))
  }

  /** What `IssuesRequest` promises, key by key. */
  lemma IssuesRequestShape(c: Client, projectSlug: Option<string>, statsPeriod: string, limit: int, sort: string, query: Option<string>)
    ensures var r := IssuesRequest(c, projectSlug, statsPeriod, limit, sort, query);
      && (Truthy(projectSlug) ==> r.url == ProjectIssuesUrl(c, projectSlug.value))
      && (!Truthy(projectSlug) ==> r.url == OrgIssuesUrl(c))
      && r.params.Some?
      && r.params.value.Keys == {"statsPeriod", "limit", "sort"} + (if Truthy(query) then {"query"} else {})
      && r.params.value["statsPeriod"] == Str(statsPeriod)
      && r.params.value["limit"] == Int(limit)
      && r.params.value["sort"] == Str(sort)
      && ("query" in r.params.value <==> Truthy(query))
      && (Truthy(query) ==> r.params.value["query"] == Str(query.value))
  {
  }

  /** `list_issues(project_slug, stats_period, limit, sort, query)`: one GET of the issues route. */
  method ListIssues<T>(c: Client, projectSlug: Option<string>, statsPeriod: string, limit: int, sort: string, query: Option<string>, server: seq<Reply<T>>)
    returns (result: Result<seq<T>>, request: Request)
    ensures request == IssuesRequest(c, projectSlug, statsPeriod, limit, sort, query)
    ensures result == Get(server)
  {
    var url: string;
    if Truthy(projectSlug) {
      url := ProjectIssuesUrl(c, projectSlug.value);
    } else {
      url := OrgIssuesUrl(c);
    }
    var params := map["statsPeriod" := Str(statsPeriod), "limit" := Int(limit), "sort" := Str(sort)];
    if Truthy(query) {
      params := params["query" := Str(query.value)];
    }
    request := Request(url, Some(params));
    result := Get(server);
  }

  function EventsRequest(c: Client, issueId: string, limit: int): Request {
    Request(EventsUrl(c, issueId), Some(map["limit" := Int(limit)]))
  }

  /**
   * `list_issue_events(issue_id, limit, paginate, max_pages)`: with `paginate`
   * the walk from the events route with `{limit}` as its first params; without
   * it exactly one request with `{limit}`.
   */
  method ListIssueEvents<T>(c: Client, issueId: string, limit: int, paginate: bool, maxPages: Option<int>, server: seq<Reply<T>>)
    returns (result: Result<seq<T>>, log: seq<Request>)
    ensures var first := EventsRequest(c, issueId, limit);
      if paginate then Pagination.Trace(result, log) == Pagination.Walk(server, first.url, first.params, 0, maxPages)
      else log == [first] && result == Get(server)
  {
    var url := EventsUrl(c, issueId);
    var params := map["limit" := Int(limit)];
    if paginate {
      result, log := Pagination.GetPaginated(server, url, Some(params), maxPages);
    } else {
      log := [Request(url, Some(params))];
      result := Get(server);
    }
  }

  /**
   * The unpaginated fetch agrees with a paginated one bounded to a single page:
   * one request, and the first page's items whatever its `next` link says.
   */
  lemma SingleFetchIsOnePage<T>(c: Client, issueId: string, limit: int, server: seq<Reply<T>>)
    ensures var first := EventsRequest(c, issueId, limit);
      Pagination.Walk(server, first.url, first.params, 0, Some(1)) == Pagination.Trace(Get(server), [first])
  {
    var first := EventsRequest(c, issueId, limit);
    assert first.url[|c.baseUrl|] == '/';
  }

  /** The optional arguments of `update_issue`. */
  datatype IssueUpdate = IssueUpdate(
    status: Option<string>,
    assignedTo: Option<string>,
    hasSeen: Option<bool>,
    isBookmarked: Option<bool>,
    isSubscribed: Option<bool>)

  /** The keys the payload must carry: `status` when truthy, the others whenever not `None`. */
  function SuppliedKeys(u: IssueUpdate): set<string> {
    (if Truthy(u.status) then {"status"} else {})
    + (if u.assignedTo.Some? then {"assignedTo"} else {})
    + (if u.hasSeen.Some? then {"hasSeen"} else {})
    + (if u.isBookmarked.Some? then {"isBookmarked"} else {})
    + (if u.isSubscribed.Some? then {"isSubscribed"} else {})
  }

  function StrAt(data: map<string, Value>, key: string): Option<string> {
    if key in data && data[key].Str? then Some(data[key].s) else None
  }

  function BoolAt(data: map<string, Value>, key: string): Option<bool> {
    if key in data && data[key].Bool? then Some(data[key].b) else None
  }

  /** Reading an update back out of a payload, as the server does. */
  function DecodeUpdate(data: map<string, Value>): IssueUpdate {
    IssueUpdate(StrAt(data, "status"), StrAt(data, "assignedTo"), BoolAt(data, "hasSeen"),
                BoolAt(data, "isBookmarked"), BoolAt(data, "isSubscribed"))
  }

  /** The update as the server sees it: an empty `status` is not sent. */
  function Normalized(u: IssueUpdate): IssueUpdate {
    if Truthy(u.status) then u else u.(status := None)
  }

  /** The payload dict `update_issue` builds, one conditional insert at a time. */
  function Payload(u: IssueUpdate): map<string, Value> {
    var d0: map<string, Value> := if Truthy(u.status) then map["status" := Str(u.status.value)] else map[];
    var d1 := if u.assignedTo.Some? then d0["assignedTo" := Str(u.assignedTo.value)] else d0;
    var d2 := if u.hasSeen.Some? then d1["hasSeen" := Bool(u.hasSeen.value)] else d1;
    var d3 := if u.isBookmarked.Some? then d2["isBookmarked" := Bool(u.isBookmarked.value)] else d2;
    if u.isSubscribed.Some? then d3["isSubscribed" := Bool(u.isSubscribed.value)] else d3
  }

  /** The payload carries exactly the supplied keys, and the server reads the normalized update back out of it. */
  lemma PayloadRoundTrip(u: IssueUpdate)
    ensures Payload(u).Keys == SuppliedKeys(u)
    ensures DecodeUpdate(Payload(u)) == Normalized(u)
  {
    var p := Payload(u);
    assert StrAt(p, "status") == Normalized(u).status;
    assert StrAt(p, "assignedTo") == u.assignedTo;
    assert BoolAt(p, "hasSeen") == u.hasSeen;
    assert BoolAt(p, "isBookmarked") == u.isBookmarked;
    assert BoolAt(p, "isSubscribed") == u.isSubscribed;
  }

  datatype PutRequest = PutRequest(url: string, payload: map<string, Value>)

  /** The answer to the PUT: the updated issue on 2xx, the status otherwise. */
  datatype PutReply<T> = Updated(issue: T) | Rejected(status: int)

  /**
   * `update_issue(issue_id, ...)`: a PUT of the issue route whose payload
   * carries exactly the supplied keys and decodes back to the arguments.
   */
  method UpdateIssue<T>(c: Client, issueId: string, u: IssueUpdate, reply: PutReply<T>)
    returns (result: Result<T>, request: PutRequest)
    ensures request.url == IssueUrl(c, issueId)
    ensures request.payload.Keys == SuppliedKeys(u)
    ensures DecodeUpdate(request.payload) == Normalized(u)
    ensures reply.Updated? ==> result == Ok(reply.issue)
    ensures reply.Rejected? ==> result == Err(HttpStatus(reply.status))
  {
    var data: map<string, Value> := map[];
    if Truthy(u.status) {
      data := data["status" := Str(u.status.value)];
    }
    if u.assignedTo.Some? {
      data := data["assignedTo" := Str(u.assignedTo.value)];
    }
    if u.hasSeen.Some? {
      data := data["hasSeen" := Bool(u.hasSeen.value)];
    }
    if u.isBookmarked.Some? {
      data := data["isBookmarked" := Bool(u.isBookmarked.value)];
    }
    if u.isSubscribed.Some? {
      data := data["isSubscribed" := Bool(u.isSubscribed.value)];
    }
    assert data == Payload(u);
    PayloadRoundTrip(u);
    request := PutRequest(IssueUrl(c, issueId), data);
    match reply
    case Updated(issue) => result := Ok(issue);
    case Rejected(code) => result := Err(HttpStatus(code));
  }
}
