/** What the client finally receives for a request: the handler's own response, or the
    error it passed to `next` as rendered by the error handler. */
module ClientResponse {
  import opened Wrappers
  import opened Tokens
  import opened UserController
  import opened ErrorHandler

  datatype ResponseBody =
    | TokenBody(accessToken: Claims, message: string)
    | ErrorBody(message: string, errorStack: Option<string>)

  datatype Response = Response(status: int, body: ResponseBody)

  /** `createHttpError(status, message)` as the error handler sees it; `stack` is the
      stack trace captured when the error was built. */
  function ToHttpError(f: Failure, stack: Option<string>): HttpError {
    HttpError(Some(f.status), f.message, stack)
  }

  /** The response for a handler outcome, in environment `env`. */
  function Deliver(o: Outcome, env: Option<string>, stack: Option<string>): (r: Response)
    ensures o.Respond? ==> r == Response(o.status, TokenBody(o.body.accessToken, o.body.message))
    ensures o.Next? && o.error.status != 0 ==> r.status == o.error.status && r.body.ErrorBody? && r.body.message == o.error.message
    ensures r.body.ErrorBody? && env != Some(Development) ==> r.body.errorStack == Some("")
  {
    match o
    case Respond(status, body) => Response(status, TokenBody(body.accessToken, body.message))
    case Next(f) =>
      var e := GlobalErrorHandler(ToHttpError(f, stack), env);
      Response(e.status, ErrorBody(e.message, e.errorStack))
  }

  /** Every registration outcome reaches the client with the status and message the
      controller chose: the 500 fallback never replaces a status the controller set. */
  lemma RegistrationStatusReachesClient(body: RegisterBody, store: Store, calls: Collaborators,
                                        env: Option<string>, stack: Option<string>)
    ensures var o := CreateUser(body, store, calls).outcome;
            var r := Deliver(o, env, stack);
            r.status == StatusOf(o) && (o.Next? ==> r.body.message == o.error.message)
  {
  }

  /** Every login outcome reaches the client with the status and message the controller
      chose. */
  lemma LoginStatusReachesClient(body: LoginBody, store: Store, calls: Collaborators,
                                 env: Option<string>, stack: Option<string>)
    ensures var o := LoginUser(body, store, calls).outcome;
            var r := Deliver(o, env, stack);
            r.status == StatusOf(o) && (o.Next? ==> r.body.message == o.error.message)
  {
  }
}
