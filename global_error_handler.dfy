/**
 * The terminal Express error handler: turns any error that reached `next`
 * into one JSON response `{ message, errorStack }`.
 */
module ErrorHandler {
  import opened Wrappers
  import opened Js
  import opened Express

  /** The error object as the handler reads it; errors not built by `createHttpError` may lack a status code. */
  datatype RaisedError = RaisedError(statusCode: Option<int>, message: string, stack: Option<string>)

  datatype ErrorBody = ErrorBody(message: string, errorStack: Option<string>)

  /** The error `createHttpError` builds from a controller's error, with its stack trace. */
  function Raised(e: HttpError, stack: Option<string>): RaisedError {
    RaisedError(Some(e.statusCode), e.message, stack)
  }

  /**
   * `globalErrorHandler`: exactly one response and no call to `next`; the
   * status is the error's own when set and non-zero, 500 otherwise; the
   * message is the error's; the stack is shown only when the environment is
   * exactly "DEVELOPMENT" and is the empty string otherwise.
   */
  function GlobalErrorHandler(err: RaisedError, env: Option<string>): (effects: seq<Effect<ErrorBody>>)
    ensures |effects| == 1 && effects[0].Respond?
    ensures err.statusCode.Some? && err.statusCode.value != 0 ==> effects[0].status == err.statusCode.value
    ensures err.statusCode.None? || err.statusCode.value == 0 ==> effects[0].status == 500
    ensures effects[0].body.message == err.message
    ensures env == Some("DEVELOPMENT") ==> effects[0].body.errorStack == err.stack
    ensures env != Some("DEVELOPMENT") ==> effects[0].body.errorStack == Some("")
  {
    var statusCode := Or(err.statusCode, 500);
    [Respond(statusCode, ErrorBody(err.message, if env == Some("DEVELOPMENT") then err.stack else Some("")))]
  }
}
