/**
 * The request/response vocabulary shared by the two Sentry API clients: what one
 * call of `_get` sends (a URL and an optional params dict) and what the server
 * answers (a 2xx page of JSON items with its `Link` header, or a non-2xx status).
 *
 * The network itself is not modelled. A server is a finite script of replies:
 * the k-th request of a call is answered by the k-th reply. `NoReply` is the
 * model's answer to a request issued after the script has run out; it stands
 * for an exhausted script, not for anything the program itself reports.
 */
module Http {

  datatype Option<T> = None | Some(value: T)

  /** Python truthiness of an optional string: `None` and `""` are both falsy. */
  predicate Truthy(s: Option<string>) {
    s.Some? && s.value != ""
  }

  /** Python's `s or fallback` for an optional string. */
  function OrElse(s: Option<string>, fallback: string): string {
    if Truthy(s) then s.value else fallback
  }

  /** A JSON scalar as it appears in a params dict or a PUT payload. */
  datatype Value = Str(s: string) | Int(i: int) | Bool(b: bool)

  type Params = map<string, Value>

  /** One `_get(url, params)` call; `params` is `None` on continuation requests. */
  datatype Request = Request(url: string, params: Option<Params>)

  /** The `next` entry of `response.links`: its URL and its `results` attribute, if any. */
  datatype Link = Link(url: string, results: Option<string>)

  /** The answer to one GET: a 2xx page (the JSON list and the `next` link) or a non-2xx status. */
  datatype Reply<T> = Page(items: seq<T>, next: Option<Link>) | Error(status: int)

  datatype FetchError =
    | HttpStatus(code: int)    // raise_for_status on a non-2xx reply
    | NoReply                  // the server script has no reply for this request
    | InvalidDate(text: string) // datetime.fromisoformat rejected a date argument

  datatype Result<T> = Ok(value: T) | Err(error: FetchError)

  /** The walker's continuation test: a `next` link exists and its `results` is exactly "true". */
  predicate HasMore(next: Option<Link>) {
    next.Some? && next.value.results == Some("true")
  }

  /** `_get` followed by `response.json()`: one request, answered by the first reply of the script. */
  function Get<T>(server: seq<Reply<T>>): Result<seq<T>> {
    if server == [] then Err(NoReply)
    else match server[0]
      case Page(items, _) => Ok(items)
      case Error(code) => Err(HttpStatus(code))
  }
}
