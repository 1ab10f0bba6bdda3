/**
 * The shapes of the answers the handlers give: a redirect, a JSON success
 * written by `successResponse`, a bare `res.status(n).json({ message })`, or
 * an error handed on to the error handler. Cookies set or cleared travel with
 * the answer.
 */
module Http {
  import opened Wrappers
  import opened Errors

  datatype CookieOp =
    | SetCookie(name: string, value: string, maxAgeMs: int)
    | ClearCookie(name: string)

  /** The payload fields beside `message`. */
  datatype Body =
    | NoBody
    | UrlBody(url: string)
    | CheckBody(privado: bool, senhaNecessaria: bool, checkUrl: Option<string>)
    | TokenBody(accessToken: string, userId: string)
    | UserBody(userId: string)

  datatype Response =
    | Redirect(location: string, cookies: seq<CookieOp>)
    | Success(status: int, message: string, body: Body, cookies: seq<CookieOp>)
    | Reply(status: int, message: string)
    | Thrown(error: AppError)
      /** The request is still drawing random keys: the source loops until a fresh one appears. */
    | Unanswered

  /** The HTTP status the client finally sees; Express's `res.redirect` answers 302. */
  function StatusOf(r: Response): int {
    match r
    case Redirect(_, _) => 302
    case Success(s, _, _, _) => s
    case Reply(s, _) => s
    case Thrown(e) => HandleError(e).status
    case Unanswered => 0
  }

  predicate ThrownKind(r: Response, k: Kind) {
    r.Thrown? && r.error.Custom? && r.error.kind == k
  }
}
