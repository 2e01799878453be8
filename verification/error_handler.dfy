/** The application-wide error handler: it turns any error passed to `next` into the
    JSON error response. */
module ErrorHandler {
  import opened Wrappers

  /** The fields of an `HttpError` the handler reads. An absent `statusCode` or `stack`
      is `None`. */
  datatype HttpError = HttpError(statusCode: Option<int>, message: string, stack: Option<string>)

  /** The response the handler sends: the status and the JSON body `{message, errorStack}`.
      An `errorStack` of `None` is `undefined`, which drops the key from the JSON. */
  datatype ErrorResponse = ErrorResponse(status: int, message: string, errorStack: Option<string>)

  const DefaultStatus: int := 500
  const Development := "development"

  /** `statusCode || 500`: a missing or zero status code falls back to 500. */
  function EffectiveStatus(statusCode: Option<int>): int {
    if statusCode.Some? && statusCode.value != 0 then statusCode.value else DefaultStatus
  }

  /** `globalErrorHandler` for the error `err` when the configured environment is `env`. */
  function GlobalErrorHandler(err: HttpError, env: Option<string>): (r: ErrorResponse)
    ensures err.statusCode.Some? && err.statusCode.value != 0 ==> r.status == err.statusCode.value
    ensures err.statusCode.None? || err.statusCode == Some(0) ==> r.status == 500
    ensures r.message == err.message
    ensures env == Some(Development) ==> r.errorStack == err.stack
    ensures env != Some(Development) ==> r.errorStack == Some("")
  {
    ErrorResponse(
      EffectiveStatus(err.statusCode),
      err.message,
      if env == Some(Development) then err.stack else Some(""))
  }
}
