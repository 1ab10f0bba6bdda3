/**
 * The error classes the controllers throw and the Express error handler that
 * turns them into responses. Every custom error carries a status code, a
 * message, a free-form context and a logging flag, and exposes `errors` as a
 * list of `{ message, context }` entries.
 */
module Errors {
  import opened Wrappers
  import opened JsString

  /** A JSON object attached to an error for diagnostics. */
  type Context = map<string, string>

  datatype Kind = BadRequest | NotFound | Unauthorized | Forbidden

  datatype AppError =
    | Custom(kind: Kind, statusCode: int, message: string, context: Context, logging: bool)
      /** Anything thrown that is not a custom error (a library exception, a TypeError). */
    | Uncaught(description: string)

  datatype Entry = Entry(message: string, context: Context)

  /** Optional constructor parameters, shared by the error classes. */
  datatype Params = Params(code: Option<int>, message: Option<string>, logging: Option<bool>, context: Option<Context>)

  function Code(p: Option<Params>): Option<int> {
    if p.Some? then p.value.code else None
  }

  function Message(p: Option<Params>): Option<string> {
    if p.Some? then p.value.message else None
  }

  function Logging(p: Option<Params>): Option<bool> {
    if p.Some? then p.value.logging else None
  }

  function Ctx(p: Option<Params>): Option<Context> {
    if p.Some? then p.value.context else None
  }

  /** `params?.message || fallback`. */
  function MessageOr(p: Option<Params>, fallback: string): string {
    if Truthy(Message(p)) then Message(p).value else fallback
  }

  /** `new ForbiddenError(params)`. */
  function NewForbidden(p: Option<Params>): (e: AppError)
    ensures e.Custom? && e.kind == Forbidden
    ensures e.statusCode == (if Code(p).Some? then Code(p).value else 403)
    ensures |e.message| > 0
    ensures Truthy(Message(p)) ==> e.message == Message(p).value
    ensures !Truthy(Message(p)) ==> e.message == "Acesso negado"
    ensures e.logging <==> Logging(p) == Some(true)
    ensures e.context == (if Ctx(p).Some? then Ctx(p).value else map[])
  {
    Custom(Forbidden, Code(p).GetOr(403), MessageOr(p, "Acesso negado"), Ctx(p).GetOr(map[]), Logging(p).GetOr(false))
  }

  /** `new UnauthorizedError(params)`: the class takes no code, so its status never varies. */
  function NewUnauthorized(p: Option<Params>): (e: AppError)
    ensures e.Custom? && e.kind == Unauthorized
    ensures e.statusCode == 401
    ensures |e.message| > 0
    ensures Truthy(Message(p)) ==> e.message == Message(p).value
    ensures !Truthy(Message(p)) ==> e.message == "Não autorizado"
    ensures e.logging <==> Logging(p) == Some(true)
    ensures e.context == (if Ctx(p).Some? then Ctx(p).value else map[])
  {
    Custom(Unauthorized, 401, MessageOr(p, "Não autorizado"), Ctx(p).GetOr(map[]), Logging(p).GetOr(false))
  }

  /** A `BadRequestError` with the given message and context (the class file is not part of this model). */
  function BadRequestError(message: string, context: Context): AppError {
    Custom(BadRequest, 400, message, context, false)
  }

  /** A `NotFoundError` with the given message (the class file is not part of this model). */
  function NotFoundError(message: string): AppError {
    Custom(NotFound, 404, message, map[], false)
  }

  function UnauthorizedError(message: string): AppError {
    NewUnauthorized(Some(Params(None, Some(message), None, None)))
  }

  function ForbiddenError(message: string): AppError {
    NewForbidden(Some(Params(None, Some(message), None, None)))
  }

  /** The `errors` getter: one entry holding the message and the context. */
  function Entries(e: AppError): (es: seq<Entry>)
    requires e.Custom?
    ensures |es| == 1 && es[0] == Entry(e.message, e.context)
  {
    [Entry(e.message, e.context)]
  }

  /** What the error handler sends and whether it wrote to the log. */
  datatype Rendered = Rendered(status: int, messages: seq<string>, logged: bool)

  const InternalMessage: string := "Erro interno do servidor"

  /**
   * `errorHandler`: a custom error is answered with its own status and the
   * messages of its entries (contexts stay on the server), and is logged only
   * when it asks to be; anything else is logged and answered 500 with one
   * generic message.
   */
  function HandleError(e: AppError): (r: Rendered)
    ensures e.Custom? ==> r.status == e.statusCode && r.messages == [e.message] && (r.logged <==> e.logging)
    ensures e.Uncaught? ==> r == Rendered(500, [InternalMessage], true)
  {
    match e
    case Custom(_, status, _, _, logging) =>
      var es := Entries(e);
      Rendered(status, seq(|es|, i requires 0 <= i < |es| => es[i].message), logging)
    case Uncaught(_) => Rendered(500, [InternalMessage], true)
  }

  /** The response body never depends on the context: errors that differ only there render alike. */
  lemma ContextNeverSent(e1: AppError, e2: AppError)
    requires e1.Custom? && e2.Custom?
    requires e1.(context := map[]) == e2.(context := map[])
    ensures HandleError(e1) == HandleError(e2)
  {
    assert e1.statusCode == e2.statusCode && e1.message == e2.message && e1.logging == e2.logging;
  }

  /** Whatever parameters it is built from, an UnauthorizedError is answered 401 with its message. */
  lemma UnauthorizedAlways401(p: Option<Params>)
    ensures HandleError(NewUnauthorized(p)).status == 401
    ensures HandleError(NewUnauthorized(p)).messages == [NewUnauthorized(p).message]
  {
  }
}
