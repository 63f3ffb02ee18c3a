/** Option and the outcome of a backend endpoint. */
module Wrappers {

  /** A value that may be absent: Python's `None`, JavaScript's `null`/`undefined`. */
  datatype Option<T> = None | Some(value: T) {
    function GetOr(default: T): T {
      if Some? then value else default
    }
  }

  /** What a FastAPI endpoint produces: its value, or the status code and detail of the
      `HTTPException` it raises. */
  datatype Outcome<T> = Ok(value: T) | Fail(status: int, detail: string) {
    /** The same failure, as the outcome of an endpoint with another result type. */
    function Forward<U>(): (r: Outcome<U>)
      requires Fail?
      ensures r.Fail? && r.status == status && r.detail == detail
    {
      Fail(status, detail)
    }
  }

  const BadRequest := 400
  const Unauthorized := 401
  const Forbidden := 403
  const NotFound := 404
  /** An attribute access on `None` raises inside the endpoint; FastAPI answers 500. */
  const ServerError := 500
}
