/**
 * The issue search of the `fetch-issues` command: composing the server-side
 * query from the command's filters, fetching the issues, and narrowing them
 * locally with the case-insensitive text filter `matches_text_filter`.
 */
module IssueSearch {
  import opened Http
  import opened Text
  import Api

  datatype Metadata = Metadata(value: Option<string>, kind: Option<string>)

  /** The fields of an issue the text filter reads; a missing key is `None`. */
  datatype Issue = Issue(title: Option<string>, culprit: Option<string>, metadata: Option<Metadata>)

  /** `d.get(key, '')`. */
  function FieldText(f: Option<string>): string {
    if f.Some? then f.value else ""
  }

  function MetaValue(issue: Issue): string {
    if issue.metadata.Some? then FieldText(issue.metadata.value.value) else ""
  }

  function MetaType(issue: Issue): string {
    if issue.metadata.Some? then FieldText(issue.metadata.value.kind) else ""
  }

  /** The four texts searched, in the order they are tried. */
  function SearchFields(issue: Issue): seq<string> {
    [FieldText(issue.title), FieldText(issue.culprit), MetaValue(issue), MetaType(issue)]
  }

  /** `matches_text_filter(issue, text_filter)`: the early returns of title, culprit, metadata value, metadata type. */
  predicate Matches(issue: Issue, textFilter: string) {
    var needle := Lower(textFilter);
    if Contains(Lower(FieldText(issue.title)), needle) then true
    else if Contains(Lower(FieldText(issue.culprit)), needle) then true
    else if Contains(Lower(MetaValue(issue)), needle) then true
    else Contains(Lower(MetaType(issue)), needle)
  }

  /** An issue matches exactly when the folded filter occurs in the folding of one of its four fields. */
  lemma MatchesIff(issue: Issue, textFilter: string)
    ensures Matches(issue, textFilter)
        <==> exists k :: 0 <= k < 4 && IsSubstring(Lower(textFilter), Lower(SearchFields(issue)[k]))
  {
    var fields := SearchFields(issue);
    forall k | 0 <= k < 4 {
      ContainsIsSubstring(Lower(fields[k]), Lower(textFilter));
    }
    if Matches(issue, textFilter) {
      var needle := Lower(textFilter);
      var k := if Contains(Lower(fields[0]), needle) then 0
               else if Contains(Lower(fields[1]), needle) then 1
               else if Contains(Lower(fields[2]), needle) then 2
               else 3;
      assert IsSubstring(needle, Lower(fields[k]));
    }
  }

  /** The filter ignores its own case: searching for `f` and for its folding agree. */
  lemma MatchesIgnoresFilterCase(issue: Issue, textFilter: string)
    ensures Matches(issue, textFilter) == Matches(issue, Lower(textFilter))
  {
    LowerIdempotent(textFilter);
  }

  /** A missing field reads as "", which the empty filter matches, so the empty filter matches every issue. */
  lemma EmptyFilterMatchesAll(issue: Issue)
    ensures Matches(issue, "")
  {
    assert Lower("") == "";
    ContainsEmpty(Lower(FieldText(issue.title)));
  }

  /** `a` consists of elements of `b`, in the order they have in `b`. */
  ghost predicate IsSubsequence<T>(a: seq<T>, b: seq<T>)
    decreases |b|
  {
    a == [] || (b != [] && ((a[0] == b[0] && IsSubsequence(a[1..], b[1..])) || IsSubsequence(a, b[1..])))
  }

  /**
   * `[issue for issue in issues if matches_text_filter(issue, text_filter)]`:
   * the matching issues, each as often as it occurs, in their original order,
   * and nothing else.
   */
  function FilterIssues(issues: seq<Issue>, textFilter: string): (r: seq<Issue>)
    ensures IsSubsequence(r, issues)
    ensures |r| <= |issues|
    ensures forall x :: multiset(r)[x] == if Matches(x, textFilter) then multiset(issues)[x] else 0
    decreases |issues|
  {
    if issues == [] then []
    else
      var rest := FilterIssues(issues[1..], textFilter);
      assert issues == [issues[0]] + issues[1..];
      if Matches(issues[0], textFilter) then
        assert ([issues[0]] + rest)[1..] == rest;
        [issues[0]] + rest
      else rest
  }

  /** Every issue the filter keeps matches, and every matching issue is kept. */
  lemma FilterKeepsExactlyMatches(issues: seq<Issue>, textFilter: string, x: Issue)
    ensures x in FilterIssues(issues, textFilter) <==> x in issues && Matches(x, textFilter)
  {
    var r := FilterIssues(issues, textFilter);
    assert x in r <==> multiset(r)[x] > 0;
    assert x in issues <==> multiset(issues)[x] > 0;
  }

  /** The empty filter keeps the list as it is. */
  lemma {:induction false} FilterEmptyKeepsAll(issues: seq<Issue>)
    ensures FilterIssues(issues, "") == issues
    decreases |issues|
  {
    if issues != [] {
      EmptyFilterMatchesAll(issues[0]);
      FilterEmptyKeepsAll(issues[1..]);
      assert [issues[0]] + issues[1..] == issues;
    }
  }

  /** Filtering twice by the same text is filtering once. */
  lemma {:induction false} FilterIdempotent(issues: seq<Issue>, textFilter: string)
    ensures FilterIssues(FilterIssues(issues, textFilter), textFilter) == FilterIssues(issues, textFilter)
    decreases |issues|
  {
    if issues != [] {
      FilterIdempotent(issues[1..], textFilter);
      var rest := FilterIssues(issues[1..], textFilter);
      if Matches(issues[0], textFilter) {
        assert ([issues[0]] + rest)[1..] == rest;
      }
    }
  }

  /** `if args.text_filter:` filter locally, otherwise keep the fetched list. */
  function ApplyTextFilter(issues: seq<Issue>, textFilter: Option<string>): seq<Issue> {
    if Truthy(textFilter) then FilterIssues(issues, textFilter.value) else issues
  }

  /** Skipping the filter on an empty `--text-filter` changes nothing: filtering by "" keeps every issue anyway. */
  lemma SkippedFilterAgrees(issues: seq<Issue>, textFilter: Option<string>)
    requires textFilter.Some?
    ensures ApplyTextFilter(issues, textFilter) == FilterIssues(issues, textFilter.value)
  {
    if !Truthy(textFilter) {
      FilterEmptyKeepsAll(issues);
    }
  }

  /** The date conversion `datetime.fromisoformat(d).isoformat()`; `None` when the date does not parse. */
  type IsoFormat = string -> Option<string>

  /** A date argument is bad when it is truthy and does not parse. */
  predicate BadDate(d: Option<string>, iso: IsoFormat) {
    Truthy(d) && iso(d.value).None?
  }

  /** The converted date of a truthy argument that parses. */
  function Iso(d: Option<string>, iso: IsoFormat): Option<string> {
    if Truthy(d) then iso(d.value) else None
  }

  /** The ordered query fragments: environment, start, end, raw query, each only when given. */
  function QueryParts(environment: Option<string>, startIso: Option<string>, endIso: Option<string>, rawQuery: Option<string>): seq<string> {
    (if Truthy(environment) then ["environment:" + environment.value] else [])
    + (if startIso.Some? then ["firstSeen:>" + startIso.value + "Z"] else [])
    + (if endIso.Some? then ["firstSeen:<" + endIso.value + "Z"] else [])
    + (if Truthy(rawQuery) then [rawQuery.value] else [])
  }

  /**
   * The query `cmd_fetch_issues` sends: the space-join of the fragments, `None`
   * without fragments, and a date error, before any request, when the start or
   * the end does not parse (the start is converted first).
   */
  function ComposeQuery(environment: Option<string>, startAt: Option<string>, endAt: Option<string>, rawQuery: Option<string>, iso: IsoFormat): Result<Option<string>> {
    if BadDate(startAt, iso) then Err(InvalidDate(startAt.value))
    else if BadDate(endAt, iso) then Err(InvalidDate(endAt.value))
    else
      var parts := QueryParts(environment, Iso(startAt, iso), Iso(endAt, iso), rawQuery);
      Ok(if parts == [] then None else Some(Join(parts)))
  }

  /** Composition fails exactly on a bad date, and names the first bad one. */
  lemma ComposeQueryErrors(environment: Option<string>, startAt: Option<string>, endAt: Option<string>, rawQuery: Option<string>, iso: IsoFormat)
    ensures var q := ComposeQuery(environment, startAt, endAt, rawQuery, iso);
      && (q.Err? <==> BadDate(startAt, iso) || BadDate(endAt, iso))
      && (q.Err? ==> q.error == InvalidDate(if BadDate(startAt, iso) then startAt.value else endAt.value))
  {
  }

  /** Without any truthy criterion the query is absent, and with one it is present. */
  lemma ComposeQueryAbsent(environment: Option<string>, startAt: Option<string>, endAt: Option<string>, rawQuery: Option<string>, iso: IsoFormat)
    requires !BadDate(startAt, iso) && !BadDate(endAt, iso)
    ensures ComposeQuery(environment, startAt, endAt, rawQuery, iso) == Ok(None)
        <==> !Truthy(environment) && !Truthy(startAt) && !Truthy(endAt) && !Truthy(rawQuery)
  {
  }

  /**
   * When no fragment holds a space, splitting the query on spaces gives back
   * the fragments in their fixed order, so the server sees each criterion as
   * one term.
   */
  lemma ComposeQueryRoundTrip(environment: Option<string>, startAt: Option<string>, endAt: Option<string>, rawQuery: Option<string>, iso: IsoFormat)
    requires ComposeQuery(environment, startAt, endAt, rawQuery, iso).Ok?
    requires ComposeQuery(environment, startAt, endAt, rawQuery, iso).value.Some?
    requires var parts := QueryParts(environment, Iso(startAt, iso), Iso(endAt, iso), rawQuery);
      forall k :: 0 <= k < |parts| ==> ' ' !in parts[k]
    ensures Split(ComposeQuery(environment, startAt, endAt, rawQuery, iso).value.value)
         == QueryParts(environment, Iso(startAt, iso), Iso(endAt, iso), rawQuery)
  {
    SplitJoin(QueryParts(environment, Iso(startAt, iso), Iso(endAt, iso), rawQuery));
  }

  /** With every criterion given, the query holds all four fragments in order, one space apart. */
  lemma ComposeQueryAll(environment: string, startAt: string, endAt: string, rawQuery: string, iso: IsoFormat)
    requires environment != "" && startAt != "" && endAt != "" && rawQuery != ""
    requires iso(startAt).Some? && iso(endAt).Some?
    ensures var env, start, end := "environment:" + environment, "firstSeen:>" + iso(startAt).value + "Z", "firstSeen:<" + iso(endAt).value + "Z";
      ComposeQuery(Some(environment), Some(startAt), Some(endAt), Some(rawQuery), iso)
      == Ok(Some(env + " " + start + " " + end + " " + rawQuery))
  {
    var a, b, d := "environment:" + environment, "firstSeen:>" + iso(startAt).value + "Z", "firstSeen:<" + iso(endAt).value + "Z";
    var parts := QueryParts(Some(environment), Iso(Some(startAt), iso), Iso(Some(endAt), iso), Some(rawQuery));
    assert parts == [a] + [b] + [d] + [rawQuery];
    assert parts == [a, b, d, rawQuery];
    assert parts[1..] == [b, d, rawQuery] && parts[1..][1..] == [d, rawQuery] && parts[1..][1..][1..] == [rawQuery];
    assert Join(parts[1..][1..]) == d + " " + rawQuery;
    assert Join(parts[1..]) == b + " " + (d + " " + rawQuery);
    assert Join(parts) == a + " " + (b + " " + (d + " " + rawQuery));
    assert a + " " + (b + " " + (d + " " + rawQuery)) == a + " " + b + " " + d + " " + rawQuery;
  }

  /** `cmd_fetch_issues` with `--environment production --query is:unresolved`. */
  lemma ComposeQueryExample(iso: IsoFormat)
    ensures ComposeQuery(Some("production"), None, None, Some("is:unresolved"), iso)
         == Ok(Some("environment:production is:unresolved"))
  {
    assert |"production"| == 10 && |"is:unresolved"| == 13;
    assert "environment:" + "production" == "environment:production";
    var parts := QueryParts(Some("production"), None, None, Some("is:unresolved"));
    assert parts == ["environment:production"] + [] + [] + ["is:unresolved"];
    assert parts == ["environment:production", "is:unresolved"];
    assert parts[1..] == ["is:unresolved"];
    assert "environment:production" + " " + "is:unresolved" == "environment:production is:unresolved";
  }

  /** Lines 384-404 of `cmd_fetch_issues`: `query_parts` built step by step, then joined. */
  method BuildQuery(environment: Option<string>, startAt: Option<string>, endAt: Option<string>, rawQuery: Option<string>, iso: IsoFormat)
    returns (query: Result<Option<string>>)
    ensures query == ComposeQuery(environment, startAt, endAt, rawQuery, iso)
  {
    var parts: seq<string> := [];
    if Truthy(environment) {
      parts := parts + ["environment:" + environment.value];
    }
    if Truthy(startAt) {
      var start := iso(startAt.value);
      if start.None? {
        return Err(InvalidDate(startAt.value));
      }
      parts := parts + ["firstSeen:>" + start.value + "Z"];
    }
    if Truthy(endAt) {
      var end := iso(endAt.value);
      if end.None? {
        return Err(InvalidDate(endAt.value));
      }
      parts := parts + ["firstSeen:<" + end.value + "Z"];
    }
    if Truthy(rawQuery) {
      parts := parts + [rawQuery.value];
    }
    assert parts == QueryParts(environment, Iso(startAt, iso), Iso(endAt, iso), rawQuery);
    query := Ok(if parts == [] then None else Some(Join(parts)));
  }

  /**
   * Lines 384-421 of `cmd_fetch_issues`: compose the query, fetch the project's
   * issues with the default stats period "24h", then apply the text filter.
   * A bad date fails before any request; a failed fetch yields no issues.
   */
  method FetchIssues(c: Api.Client, project: string, environment: Option<string>, startAt: Option<string>, endAt: Option<string>,
                     rawQuery: Option<string>, textFilter: Option<string>, statsPeriod: Option<string>, limit: int, sort: string,
                     iso: IsoFormat, server: seq<Reply<Issue>>)
    returns (result: Result<seq<Issue>>, sent: seq<Request>)
    ensures var q := ComposeQuery(environment, startAt, endAt, rawQuery, iso);
      if q.Err? then result == Err(q.error) && sent == []
      else
        && sent == [Api.IssuesRequest(c, Some(project), OrElse(statsPeriod, "24h"), limit, sort, q.value)]
        && (Get(server).Ok? ==> result == Ok(ApplyTextFilter(Get(server).value, textFilter)))
        && (Get(server).Err? ==> result == Get(server))
  {
    var query := BuildQuery(environment, startAt, endAt, rawQuery, iso);
    if query.Err? {
      return Err(query.error), [];
    }
    var period := OrElse(statsPeriod, "24h");
    var fetched, request := Api.ListIssues(c, Some(project), period, limit, sort, query.value, server);
    sent := [request];
    if fetched.Err? {
      return fetched, sent;
    }
    result := Ok(ApplyTextFilter(fetched.value, textFilter));
  }

  /** Filtering `[{title: "Null pointer in Foo"}, {title: "Timeout"}]` by "null" keeps only the first. */
  lemma FilterExample()
    ensures FilterIssues([Issue(Some("Null pointer in Foo"), None, None), Issue(Some("Timeout"), None, None)], "null")
         == [Issue(Some("Null pointer in Foo"), None, None)]
  {
    var a := Issue(Some("Null pointer in Foo"), None, None);
    var b := Issue(Some("Timeout"), None, None);
    assert Lower("null") == "null";
    assert Lower("Null pointer in Foo")[..4] == "null";
    assert Matches(a, "null");
    assert Lower("Timeout") == "timeout";
    FirstCharMissing("timeout", "null");
    assert !Matches(b, "null");
    assert [a, b][1..] == [b];
  }
}
