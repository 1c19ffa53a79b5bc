/**
 * The HTTP surface every handler shares: the parts of a request the handlers
 * read, and the status-plus-body they answer with.
 */
module Http {
  import opened Json

  /**
   * `verb` is `request.method`; `query` holds the URL's search parameters;
   * `routeId` is the `{id}` route segment; `body` is what `request.json()` parsed.
   */
  datatype Request = Request(verb: string, query: map<string, string>, routeId: Option<string>, body: Object)

  /** `url.searchParams.get(name)`: null when absent. */
  function Param(req: Request, name: string): Option<string>
  {
    if name in req.query then Some(req.query[name]) else None
  }

  /** Truthiness of a search parameter: present and not the empty string. */
  predicate Given(p: Option<string>)
  {
    p.Some? && p.value != ""
  }

  /** `p || fallback` for a search parameter. */
  function OrElse(p: Option<string>, fallback: string): (r: string)
    ensures Given(p) ==> r == p.value
    ensures !Given(p) ==> r == fallback
  {
    if Given(p) then p.value else fallback
  }

  /** A handler's answer: a success status with its JSON body, or an error status with `{ error }`. */
  datatype Response<T> = Ok(status: int, body: T) | Fail(status: int, error: string)

  const METHOD_NOT_ALLOWED: string := "Método no permitido"
  const INTERNAL_ERROR: string := "Error interno del servidor"
}
