/**
 * The older authentication middlewares, still mounted on the link routes
 * the server serves. The token is the second space-separated word of the
 * Authorization header, whatever the scheme; cookies are not read. Users
 * are the legacy user documents.
 */
module LegacyAuthMiddleware {
  import opened Wrappers
  import opened JsString
  import opened Oracles
  import opened Http
  import opened LinkModel
  import opened LegacyUserModel
  import UserModel
  import AuthMiddleware
  import Helpers

  /** `authHeader?.split(' ')[1]`: a token exactly when the header has a space, and never one with a space in it. */
  function HeaderToken(authorization: Option<string>): (r: Option<string>)
    ensures r.Some? <==> authorization.Some? && ' ' in authorization.value
    ensures r.Some? ==> ' ' !in r.value
  {
    if authorization.None? then None else SecondSegment(authorization.value)
  }

  /** `verifyTokenAndGetUser` over the legacy users. */
  function UserOfToken(env: Env, users: seq<LegacyUser>, token: Option<string>): (r: Option<UserId>)
    ensures r.Some? <==>
              && Truthy(token)
              && env.verify(JwtSecret, token.value).Some?
              && env.verify(JwtSecret, token.value).value.userId.Some?
              && exists j :: 0 <= j < |users| && users[j].id == env.verify(JwtSecret, token.value).value.userId.value
    ensures r.Some? ==> r == env.verify(JwtSecret, token.value).value.userId
  {
    if !Truthy(token) then None
    else
      match env.verify(JwtSecret, token.value)
      case None => None
      case Some(claims) =>
        match claims.userId
        case None => None
        case Some(id) =>
          match UserModel.FindFirst(users, (u: LegacyUser) => u.id == id)
          case None => None
          case Some(i) => Some(users[i].id)
  }

  function Authenticate(env: Env, users: seq<LegacyUser>, authorization: Option<string>): (r: AuthMiddleware.Outcome)
    ensures r.Next? <==> UserOfToken(env, users, HeaderToken(authorization)).Some?
    ensures r.Next? ==> r.user == UserOfToken(env, users, HeaderToken(authorization))
    ensures r.Refused? ==> r.response == Reply(401, AuthMiddleware.DeniedMessage)
  {
    match UserOfToken(env, users, HeaderToken(authorization))
    case None => AuthMiddleware.Refused(Reply(401, AuthMiddleware.DeniedMessage))
    case Some(id) => AuthMiddleware.Next(Some(id))
  }

  function Optional(env: Env, users: seq<LegacyUser>, authorization: Option<string>): (r: AuthMiddleware.Outcome)
    ensures r.Next? && r.user == UserOfToken(env, users, HeaderToken(authorization))
  {
    AuthMiddleware.Next(UserOfToken(env, users, HeaderToken(authorization)))
  }

  /**
   * On a Bearer header the two generations read the same token; on any
   * other header with a space, only the legacy one takes its second word
   * (`Basic abc` yields `abc`), while the current one goes on to the cookies.
   */
  lemma SchemeIgnored(h: string)
    requires ' ' in h
    ensures StartsWith(h, "Bearer ") ==> HeaderToken(Some(h)) == Helpers.BearerToken(Some(h))
    ensures !StartsWith(h, "Bearer ") ==> HeaderToken(Some(h)).Some? && Helpers.BearerToken(Some(h)).None?
  {
  }

  /** A header with no space yields no token, so the mandatory gate refuses and the optional one finds no one. */
  lemma NoSpaceNoUser(env: Env, users: seq<LegacyUser>, h: string)
    requires ' ' !in h
    ensures Authenticate(env, users, Some(h)).Refused?
    ensures Optional(env, users, Some(h)) == AuthMiddleware.Next(None)
  {
  }
}
