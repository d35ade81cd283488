/**
 * The parts of the Fetch API the service worker looks at. A network fetch is
 * not performed here: its outcome is supplied by the caller.
 */
module FetchApi {

  /** `Response.type`. */
  datatype ResponseType = Basic | Cors | Default | Error | Opaque | OpaqueRedirect

  /** A response: its status code, its type, and the payload it carries. */
  datatype Response = Response(status: int, kind: ResponseType, body: string)

  /** `Request.mode`; only `Navigate` matters to the worker. */
  datatype RequestMode = Navigate | SameOrigin | NoCors | Cors

  /** A request as the worker sees it: `method` (as httpMethod), absolute or path `url`, and `mode`. */
  datatype Request = Request(httpMethod: string, url: string, mode: RequestMode)

  /**
   * What `fetch(request)` settles to: rejected (network failure), or resolved
   * with a response. `fetch` never resolves with a falsy value.
   */
  datatype FetchOutcome = NetworkFailure | Fetched(response: Response)

  /** The Fetch standard's "ok status": 200 to 299. */
  predicate OkStatus(status: int)
  {
    200 <= status <= 299
  }
}
