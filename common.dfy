/** Values shared by every handler: optional values, the application error and the
    outcome of one middleware or handler invocation. */
module Common {

  datatype Option<+T> = None | Some(value: T)

  /** The uniform application error: a message and an HTTP status code. The status
      class it carries is derived from the code by StatusClass. */
  datatype ApiError = ApiError(message: string, statusCode: int)

  /** What one handler does with a request:
      - Ok(v): it calls next() (a middleware) or responds successfully (a handler) with v;
      - Reject(e): it calls next(e) with an application error;
      - Raise(m): a library or runtime exception with message m escapes it and is
        forwarded to the global error handler without a status code. */
  datatype Outcome<+T> = Ok(value: T) | Reject(error: ApiError) | Raise(message: string)

  /** The status class of an application error: "fail" for client errors (4xx),
      "error" otherwise. */
  function StatusClass(code: int): (s: string)
    ensures s == "fail" <==> 400 <= code < 500
    ensures s == "fail" || s == "error"
  {
    if 400 <= code < 500 then "fail" else "error"
  }
}
