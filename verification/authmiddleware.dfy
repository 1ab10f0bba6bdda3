/**
 * The current authentication middlewares. Both pick one token from the
 * request (a Bearer Authorization header first, then the `token`,
 * `accessToken` and `refreshToken` cookies, in that order), verify it with
 * the access-token secret and look its user up; `authenticateToken` refuses
 * the request when that fails, `optionalAuthenticateToken` always passes it
 * on, with or without a user.
 */
module AuthMiddleware {
  import opened Wrappers
  import opened JsString
  import opened Oracles
  import opened Http
  import opened LinkModel
  import opened UserModel
  import Helpers

  const DeniedMessage: string := "Acesso negado. Token inválido ou não fornecido."

  /** What a request carries that the middlewares read. */
  datatype Credentials = Credentials(
    authorization: Option<string>,
    tokenCookie: Option<string>,
    accessCookie: Option<string>,
    refreshCookie: Option<string>)

  /** What a middleware does with the request: hand it on, with the user it found, or answer it. */
  datatype Outcome =
    | Next(user: Option<UserId>)
    | Refused(response: Response)

  /** JavaScript's `a || b` on optional strings. */
  function Or(a: Option<string>, b: Option<string>): (r: Option<string>)
    ensures Truthy(r) <==> Truthy(a) || Truthy(b)
    ensures Truthy(a) ==> r == a
    ensures !Truthy(a) ==> r == b
  {
    if Truthy(a) then a else b
  }

  /** The token the middlewares try: the first present one in order of precedence. */
  function SelectToken(c: Credentials): (r: Option<string>)
    ensures Truthy(r) <==>
              Truthy(Helpers.BearerToken(c.authorization)) || Truthy(c.tokenCookie) ||
              Truthy(c.accessCookie) || Truthy(c.refreshCookie)
    ensures Truthy(Helpers.BearerToken(c.authorization)) ==> r == Helpers.BearerToken(c.authorization)
    ensures !Truthy(Helpers.BearerToken(c.authorization)) && Truthy(c.tokenCookie) ==> r == c.tokenCookie
    ensures !Truthy(Helpers.BearerToken(c.authorization)) && !Truthy(c.tokenCookie) && Truthy(c.accessCookie) ==>
              r == c.accessCookie
    ensures !Truthy(Helpers.BearerToken(c.authorization)) && !Truthy(c.tokenCookie) && !Truthy(c.accessCookie) ==>
              r == c.refreshCookie
  {
    Or(Helpers.BearerToken(c.authorization), Or(c.tokenCookie, Or(c.accessCookie, c.refreshCookie)))
  }

  /**
   * `verifyTokenAndGetUser`: the id of the stored user the token names.
   * A missing token, a token that does not verify, a payload without
   * `userId` and an unknown id all give nothing.
   */
  function UserOfToken(env: Env, users: seq<User>, token: Option<string>): (r: Option<UserId>)
    ensures r.Some? <==>
              && Truthy(token)
              && env.verify(JwtSecret, token.value).Some?
              && env.verify(JwtSecret, token.value).value.userId.Some?
              && exists j :: 0 <= j < |users| && users[j].id == env.verify(JwtSecret, token.value).value.userId.value
    ensures r.Some? ==> r == env.verify(JwtSecret, token.value).value.userId
  {
    if !Truthy(token) then None
    else
      match env.verify(JwtSecret, token.value)
      case None => None
      case Some(claims) =>
        match claims.userId
        case None => None
        case Some(id) =>
          match FindById(users, id)
          case None => None
          case Some(i) => Some(users[i].id)
  }

  /** `authenticateToken`: only a request whose token names a stored user gets through. */
  function Authenticate(env: Env, users: seq<User>, c: Credentials): (r: Outcome)
    ensures r.Next? <==> UserOfToken(env, users, SelectToken(c)).Some?
    ensures r.Next? ==> r.user == UserOfToken(env, users, SelectToken(c)) && r.user.Some?
    ensures r.Refused? ==> r.response == Reply(401, DeniedMessage)
  {
    match UserOfToken(env, users, SelectToken(c))
    case None => Refused(Reply(401, DeniedMessage))
    case Some(id) => Next(Some(id))
  }

  /** `optionalAuthenticateToken`: every request gets through, carrying the user when there is one. */
  function Optional(env: Env, users: seq<User>, c: Credentials): (r: Outcome)
    ensures r.Next? && r.user == UserOfToken(env, users, SelectToken(c))
  {
    Next(UserOfToken(env, users, SelectToken(c)))
  }

  /**
   * The two gates agree on who the caller is: the mandatory one lets
   * through exactly the requests on which the optional one finds a user,
   * and with the same user.
   */
  lemma GatesAgree(env: Env, users: seq<User>, c: Credentials)
    ensures Authenticate(env, users, c).Next? <==> Optional(env, users, c).user.Some?
    ensures Authenticate(env, users, c).Next? ==> Authenticate(env, users, c) == Optional(env, users, c)
  {
  }

  /**
   * A Bearer header decides alone: whatever cookies come with it, the
   * outcome is the one the header gives. A header token that fails is not
   * retried with the cookies.
   */
  lemma HeaderOverridesCookies(env: Env, users: seq<User>, c: Credentials, d: Credentials)
    requires c.authorization == d.authorization
    requires Truthy(Helpers.BearerToken(c.authorization))
    ensures Authenticate(env, users, c) == Authenticate(env, users, d)
    ensures Optional(env, users, c) == Optional(env, users, d)
  {
  }

  /**
   * Without a header and the other two cookies, the refresh cookie is what
   * is tried; it is checked with the access-token secret, so a refresh
   * token that verifies only under its own secret is refused.
   */
  lemma RefreshCookieAloneRefused(env: Env, users: seq<User>, refresh: string)
    requires |refresh| > 0 && env.verify(JwtSecret, refresh).None?
    ensures Authenticate(env, users, Credentials(None, None, None, Some(refresh))) == Refused(Reply(401, DeniedMessage))
    ensures Optional(env, users, Credentials(None, None, None, Some(refresh))) == Next(None)
  {
  }
}
