/**
 * The legacy account controller, still reachable through the older user
 * routes. It answers with plain `{ message }` replies instead of throwing,
 * and works on the legacy User document, whose display field is `name`.
 */
module LegacyAccounts {
  import opened Wrappers
  import opened JsString
  import opened Oracles
  import opened Errors
  import opened Http
  import opened LinkModel
  import opened LegacyUserModel
  import UserModel
  import A = Accounts
  import Hex

  const RegisterFailedMessage: string := "Erro ao cadastrar usuário."
  const LoginFailedMessage: string := "Erro ao fazer login."
  const ExpiredTokenMessage: string := "Token expirado."
  const ResetFailure: string := "Error: Token inválido ou expirado"

  function FindByEmail(users: seq<LegacyUser>, email: string): (r: Option<nat>)
    ensures r.Some? ==> r.value < |users| && users[r.value].email == email
    ensures r.None? <==> !EmailTaken(users, email)
  {
    UserModel.FindFirst(users, (u: LegacyUser) => u.email == email)
  }

  function FindById(users: seq<LegacyUser>, id: UserId): (r: Option<nat>)
    ensures r.Some? ==> r.value < |users| && users[r.value].id == id
    ensures r.None? ==> forall j :: 0 <= j < |users| ==> users[j].id != id
  {
    UserModel.FindFirst(users, (u: LegacyUser) => u.id == id)
  }

  function FindByRefreshToken(users: seq<LegacyUser>, token: string): (r: Option<nat>)
    ensures r.Some? ==> r.value < |users| && users[r.value].refreshToken == Some(token)
    ensures r.None? ==> forall j :: 0 <= j < |users| ==> users[j].refreshToken != Some(token)
  {
    UserModel.FindFirst(users, (u: LegacyUser) => u.refreshToken == Some(token))
  }

  predicate ResetLive(u: LegacyUser, token: string, now: int) {
    u.resetPasswordToken == Some(token) && u.resetPasswordExpires.Some? && u.resetPasswordExpires.value > now
  }

  function FindByResetToken(users: seq<LegacyUser>, token: string, now: int): (r: Option<nat>)
    ensures r.Some? ==> r.value < |users| && ResetLive(users[r.value], token, now)
    ensures r.None? ==> forall j :: 0 <= j < |users| ==> !ResetLive(users[j], token, now)
  {
    UserModel.FindFirst(users, (u: LegacyUser) => ResetLive(u, token, now))
  }

  /** The validation shared by both versions of `register`, before anything is saved. */
  function RegisterPrecheck(users: seq<LegacyUser>, req: A.RegisterRequest): (r: Option<Response>)
    ensures r.None? <==> A.RegisterComplete(req) && req.password == req.confirmPassword && !EmailTaken(users, req.email.value)
    ensures r.Some? ==> r.value.Reply? && r.value.status == 400
  {
    if !A.RegisterComplete(req) then Some(Reply(400, A.MissingRegisterMessage))
    else if req.password != req.confirmPassword then Some(Reply(400, A.MismatchMessage))
    else if EmailTaken(users, req.email.value) then Some(Reply(400, A.EmailTakenMessage))
    else None
  }

  /**
   * `register` as written: the new document is built with `nome`, a field
   * the legacy schema does not declare, so strict mode drops it and the
   * required `name` is missing when it is saved.
   */
  function RegisterAsWritten(env: Env, users: seq<LegacyUser>, req: A.RegisterRequest, newId: UserId, bytes: Hex.Random3, now: int): (r: (seq<LegacyUser>, Response))
    ensures RegisterPrecheck(users, req).Some? ==> r == (users, RegisterPrecheck(users, req).value)
  {
    match RegisterPrecheck(users, req)
    case Some(refusal) => (users, refusal)
    case None =>
      var draft := LegacyDraft(None, req.email, Some(env.hash(req.password.value)), Some(false), Some(A.VerificationCode(bytes)));
      match NewLegacyUser(users, newId, draft, now)
      case Err(_) => (users, Reply(500, RegisterFailedMessage))
      case Ok(u) => (users + [u], Success(201, A.RegisteredMessage, UserBody(newId), []))
  }

  /** No request registers anyone: a request that passes validation is answered 500. */
  lemma RegisterAsWrittenNeverRegisters(env: Env, users: seq<LegacyUser>, req: A.RegisterRequest, newId: UserId, bytes: Hex.Random3, now: int)
    ensures var r := RegisterAsWritten(env, users, req, newId, bytes, now);
            r.0 == users && !r.1.Success?
    ensures RegisterPrecheck(users, req).None? ==> RegisterAsWritten(env, users, req, newId, bytes, now).1 == Reply(500, RegisterFailedMessage)
  {
  }

  /**
   * `register` with the display name passed as `name`, and the refresh token
   * its cookie is meant to carry signed and stored, as the current
   * controller does.
   */
  function Register(env: Env, users: seq<LegacyUser>, req: A.RegisterRequest, newId: UserId, bytes: Hex.Random3, now: int): (r: (seq<LegacyUser>, Response))
    ensures RegisterPrecheck(users, req).Some? ==> r == (users, RegisterPrecheck(users, req).value)
    ensures RegisterPrecheck(users, req).None? && Truthy(Some(env.hash(req.password.value))) ==>
              && r.1 == Success(201, A.RegisteredMessage, UserBody(newId),
                                [SetCookie(A.RefreshCookie, env.sign(RefreshSecret, newId, now), A.RefreshMaxAgeMs)])
              && |r.0| == |users| + 1 && r.0[..|users|] == users
              && r.0[|users|].name == req.nome.value && r.0[|users|].email == req.email.value
              && !r.0[|users|].verificado && r.0[|users|].verificationCode == Some(A.VerificationCode(bytes))
              && r.0[|users|].refreshToken == Some(env.sign(RefreshSecret, newId, now))
  {
    match RegisterPrecheck(users, req)
    case Some(refusal) => (users, refusal)
    case None =>
      var draft := LegacyDraft(req.nome, req.email, Some(env.hash(req.password.value)), Some(false), Some(A.VerificationCode(bytes)));
      match NewLegacyUser(users, newId, draft, now)
      case Err(_) => (users, Reply(500, RegisterFailedMessage))
      case Ok(u) =>
        var token := env.sign(RefreshSecret, newId, now);
        (users + [u.(refreshToken := Some(token))],
         Success(201, A.RegisteredMessage, UserBody(newId), [SetCookie(A.RefreshCookie, token, A.RefreshMaxAgeMs)]))
  }

  /** `verificarCodigo`: the same decisions as the current controller, as plain replies. */
  function VerifyCode(users: seq<LegacyUser>, email: Option<string>, codigo: Option<string>): (r: (seq<LegacyUser>, Response))
    ensures !Truthy(email) || !Truthy(codigo) ==> r == (users, Reply(400, A.MissingVerifyMessage))
    ensures Truthy(email) && Truthy(codigo) && FindByEmail(users, email.value).None? ==> r == (users, Reply(404, A.UserNotFoundMessage))
    ensures Truthy(email) && Truthy(codigo) && FindByEmail(users, email.value).Some? ==>
              var i := FindByEmail(users, email.value).value;
              && (users[i].verificado ==> r == (users, Reply(400, A.AlreadyVerifiedMessage)))
              && (!users[i].verificado && users[i].verificationCode != codigo ==> r == (users, Reply(400, A.BadCodeMessage)))
              && (!users[i].verificado && users[i].verificationCode == codigo ==>
                    r == (users[i := users[i].(verificado := true, verificationCode := None)], Success(200, A.VerifiedMessage, NoBody, [])))
  {
    if !Truthy(email) || !Truthy(codigo) then (users, Reply(400, A.MissingVerifyMessage))
    else
      match FindByEmail(users, email.value)
      case None => (users, Reply(404, A.UserNotFoundMessage))
      case Some(i) =>
        if users[i].verificado then (users, Reply(400, A.AlreadyVerifiedMessage))
        else if users[i].verificationCode != codigo then (users, Reply(400, A.BadCodeMessage))
        else (users[i := users[i].(verificado := true, verificationCode := None)], Success(200, A.VerifiedMessage, NoBody, []))
  }

  /** `reenviarCodigo`: the stored code is replaced; nothing else changes. */
  function ResendCode(users: seq<LegacyUser>, email: Option<string>, bytes: Hex.Random3): (r: (seq<LegacyUser>, Response))
    ensures !Truthy(email) ==> r == (users, Reply(400, A.EmailRequiredMessage))
    ensures Truthy(email) && FindByEmail(users, email.value).None? ==> r == (users, Reply(404, A.UserNotFoundMessage))
    ensures Truthy(email) && FindByEmail(users, email.value).Some? ==>
              var i := FindByEmail(users, email.value).value;
              r == (users[i := users[i].(verificationCode := Some(A.VerificationCode(bytes)))], Success(200, A.ResentMessage, NoBody, []))
  {
    if !Truthy(email) then (users, Reply(400, A.EmailRequiredMessage))
    else
      match FindByEmail(users, email.value)
      case None => (users, Reply(404, A.UserNotFoundMessage))
      case Some(i) => (users[i := users[i].(verificationCode := Some(A.VerificationCode(bytes)))], Success(200, A.ResentMessage, NoBody, []))
  }

  /**
   * The part of `login` after the field check. `findOne({ email: undefined })`
   * drops the undefined condition and so meets the first user;
   * `bcrypt.compare` throws on an undefined password, which the handler turns
   * into a 500.
   */
  function LoginLookup(env: Env, users: seq<LegacyUser>, email: Option<string>, password: Option<string>, now: int): (r: (seq<LegacyUser>, Response))
    ensures email.Some? && FindByEmail(users, email.value).None? ==> r == (users, Reply(400, A.UserNotFoundMessage))
    ensures r.1.Success? ==> password.Some? && |r.0| == |users|
    ensures password.None? ==> r.0 == users && r.1.Reply?
  {
    var found := if email.Some? then FindByEmail(users, email.value) else if |users| > 0 then Some(0) else None;
    match found
    case None => (users, Reply(400, A.UserNotFoundMessage))
    case Some(i) =>
      var u := users[i];
      if password.None? then (users, Reply(500, LoginFailedMessage))
      else if !env.matches(password.value, u.password) then (users, Reply(401, A.WrongPasswordMessage))
      else
        var refresh := env.sign(RefreshSecret, u.id, now);
        (users[i := u.(refreshToken := Some(refresh))],
         Success(200, A.LoggedInMessage, TokenBody(env.sign(JwtSecret, u.id, now), u.id), [SetCookie(A.RefreshCookie, refresh, A.RefreshMaxAgeMs)]))
  }

  /**
   * What follows the first answer once the lookup runs after it. Express has
   * sent its headers, so whatever writes a header next throws, and the catch
   * block then tries to answer 500, which throws in turn. A plain reply from
   * the lookup is tried before that 500. A successful lookup has already saved
   * the refresh token, and `res.cookie` throws before the 200 is written, so
   * only the 500 is tried. A lookup that already answered 500 from the catch
   * stops there.
   */
  function AfterHeadersSent(lookup: Response): (r: seq<Response>)
    ensures |r| >= 1 && r[|r| - 1] == Reply(500, LoginFailedMessage)
    ensures forall k :: 0 <= k < |r| ==> !r[k].Success?
    ensures lookup.Reply? && lookup.status != 500 ==> r == [lookup, Reply(500, LoginFailedMessage)]
    ensures !(lookup.Reply? && lookup.status != 500) ==> r == [Reply(500, LoginFailedMessage)]
  {
    if lookup.Reply? && lookup.status != 500 then [lookup, Reply(500, LoginFailedMessage)]
    else [Reply(500, LoginFailedMessage)]
  }

  /**
   * `login` as written: after answering 400 for a missing field the handler
   * does not return, so it goes on to look the user up and tries to answer
   * again. The result lists every answer the handler attempts, in order;
   * the client receives only the first.
   */
  function LoginAsWritten(env: Env, users: seq<LegacyUser>, email: Option<string>, password: Option<string>, now: int): (r: (seq<LegacyUser>, seq<Response>))
    ensures |r.1| >= 1
    ensures r.0 == LoginLookup(env, users, email, password, now).0
    ensures !Truthy(email) || !Truthy(password) ==>
              && |r.1| >= 2 && r.1[0] == Reply(400, A.MissingLoginMessage)
              && r.1[|r.1| - 1] == Reply(500, LoginFailedMessage)
              && (forall k :: 0 <= k < |r.1| ==> !r.1[k].Success?)
    ensures Truthy(email) && Truthy(password) ==> r.1 == [LoginLookup(env, users, email, password, now).1]
  {
    var lookup := LoginLookup(env, users, email, password, now);
    if !Truthy(email) || !Truthy(password) then
      (lookup.0, [Reply(400, A.MissingLoginMessage)] + AfterHeadersSent(lookup.1))
    else
      (lookup.0, [lookup.1])
  }

  /**
   * A request without an e-mail whose password matches the first stored
   * user: the client is told 400, yet that user's refresh token has been
   * replaced, and no cookie carries the new one.
   */
  lemma MissingEmailStillLogsIn(env: Env, users: seq<LegacyUser>, pw: string, now: int)
    requires |users| > 0 && |pw| > 0 && env.matches(pw, users[0].password)
    ensures var r := LoginAsWritten(env, users, None, Some(pw), now);
            && r.1 == [Reply(400, A.MissingLoginMessage), Reply(500, LoginFailedMessage)]
            && r.0[0].refreshToken == Some(env.sign(RefreshSecret, users[0].id, now))
  {
  }

  /**
   * `login` with the missing `return` restored: one answer per request, and
   * a request with a missing field changes nothing.
   */
  function Login(env: Env, users: seq<LegacyUser>, email: Option<string>, password: Option<string>, now: int): (r: (seq<LegacyUser>, Response))
    ensures !Truthy(email) || !Truthy(password) ==> r == (users, Reply(400, A.MissingLoginMessage))
    ensures Truthy(email) && Truthy(password) && FindByEmail(users, email.value).None? ==> r == (users, Reply(400, A.UserNotFoundMessage))
    ensures Truthy(email) && Truthy(password) && FindByEmail(users, email.value).Some? ==>
              var i := FindByEmail(users, email.value).value;
              && (!env.matches(password.value, users[i].password) ==> r == (users, Reply(401, A.WrongPasswordMessage)))
              && (env.matches(password.value, users[i].password) ==>
                    r.0 == users[i := users[i].(refreshToken := Some(env.sign(RefreshSecret, users[i].id, now)))] &&
                    r.1.Success? && r.1.status == 200)
  {
    if !Truthy(email) || !Truthy(password) then (users, Reply(400, A.MissingLoginMessage))
    else LoginLookup(env, users, email, password, now)
  }

  /**
   * The two versions agree on complete requests; on a request that names an
   * e-mail but no password, the written version answers twice, 400 and then
   * 500, where the corrected one answers once.
   */
  lemma LoginAnswersTwice(env: Env, users: seq<LegacyUser>, email: string, now: int)
    requires |email| > 0 && EmailTaken(users, email)
    ensures LoginAsWritten(env, users, Some(email), None, now).1 ==
              [Reply(400, A.MissingLoginMessage), Reply(500, LoginFailedMessage)]
    ensures Login(env, users, Some(email), None, now) == (users, Reply(400, A.MissingLoginMessage))
  {
  }

  /** On complete requests both versions give the same single answer and the same state. */
  lemma LoginVersionsAgree(env: Env, users: seq<LegacyUser>, email: Option<string>, password: Option<string>, now: int)
    requires Truthy(email) && Truthy(password)
    ensures var w := LoginAsWritten(env, users, email, password, now);
            var c := Login(env, users, email, password, now);
            w.0 == c.0 && w.1 == [c.1]
  {
  }

  /**
   * `refreshToken` as written: a token that fails verification is answered
   * 403 "Token inválido." whatever the reason, because the handler looks
   * for the error's name under `nome`, which no jsonwebtoken error has.
   * `expired` says whether the failure was the token's expiry.
   */
  function RefreshAsWritten(env: Env, users: seq<LegacyUser>, cookie: Option<string>, expired: bool, now: int): (r: Response)
    ensures !Truthy(cookie) ==> r == Reply(401, A.NoRefreshMessage)
    ensures Truthy(cookie) && env.verify(RefreshSecret, cookie.value).None? ==> r == Reply(403, A.BadRefreshMessage)
    ensures r.Success? <==>
              && Truthy(cookie) && env.verify(RefreshSecret, cookie.value).Some?
              && var id := env.verify(RefreshSecret, cookie.value).value.userId;
              && Truthy(id) && FindById(users, id.value).Some?
              && users[FindById(users, id.value).value].refreshToken == cookie
  {
    if !Truthy(cookie) then Reply(401, A.NoRefreshMessage)
    else
      match env.verify(RefreshSecret, cookie.value)
      case None => Reply(403, A.BadRefreshMessage)
      case Some(claims) => RefreshVerified(env, users, cookie.value, claims, now)
  }

  /** The part of `refreshToken` after the token verified. */
  function RefreshVerified(env: Env, users: seq<LegacyUser>, token: string, claims: Claims, now: int): (r: Response)
    ensures r.Success? <==> Truthy(claims.userId) && FindById(users, claims.userId.value).Some? &&
                            users[FindById(users, claims.userId.value).value].refreshToken == Some(token)
    ensures !Truthy(claims.userId) ==> r == Reply(403, A.BadClaimsMessage)
    ensures r.Success? ==> r == Success(200, A.RefreshedMessage, TokenBody(env.sign(JwtSecret, claims.userId.value, now), claims.userId.value), [])
    ensures !r.Success? ==> r.Reply? && r.status == 403
  {
    if !Truthy(claims.userId) then Reply(403, A.BadClaimsMessage)
    else
      match FindById(users, claims.userId.value)
      case None => Reply(403, A.BadRefreshMessage)
      case Some(i) =>
        if users[i].refreshToken != Some(token) then Reply(403, A.BadRefreshMessage)
        else Success(200, A.RefreshedMessage, TokenBody(env.sign(JwtSecret, users[i].id, now), users[i].id), [])
  }

  /** `refreshToken` reading the error's `name`: an expired token is reported as such. */
  function Refresh(env: Env, users: seq<LegacyUser>, cookie: Option<string>, expired: bool, now: int): (r: Response)
    ensures !Truthy(cookie) ==> r == Reply(401, A.NoRefreshMessage)
    ensures Truthy(cookie) && env.verify(RefreshSecret, cookie.value).None? ==>
              r == Reply(403, if expired then ExpiredTokenMessage else A.BadRefreshMessage)
    ensures Truthy(cookie) && env.verify(RefreshSecret, cookie.value).Some? ==>
              r == RefreshVerified(env, users, cookie.value, env.verify(RefreshSecret, cookie.value).value, now)
  {
    if !Truthy(cookie) then Reply(401, A.NoRefreshMessage)
    else
      match env.verify(RefreshSecret, cookie.value)
      case None => Reply(403, if expired then ExpiredTokenMessage else A.BadRefreshMessage)
      case Some(claims) => RefreshVerified(env, users, cookie.value, claims, now)
  }

  /** The two versions differ exactly on expired tokens, which only the corrected one names. */
  lemma ExpiredRefreshMisreported(env: Env, users: seq<LegacyUser>, cookie: string, now: int)
    requires |cookie| > 0 && env.verify(RefreshSecret, cookie).None?
    ensures RefreshAsWritten(env, users, Some(cookie), true, now) == Reply(403, A.BadRefreshMessage)
    ensures Refresh(env, users, Some(cookie), true, now) == Reply(403, ExpiredTokenMessage)
    ensures forall expired: bool :: RefreshAsWritten(env, users, Some(cookie), expired, now) == Refresh(env, users, Some(cookie), false, now)
  {
  }

  /** `logout`: the holder of the presented refresh token loses it. */
  function Logout(users: seq<LegacyUser>, cookie: Option<string>): (r: (seq<LegacyUser>, Response))
    ensures !Truthy(cookie) ==> r == (users, Reply(401, A.NoRefreshMessage))
    ensures Truthy(cookie) && FindByRefreshToken(users, cookie.value).None? ==> r == (users, Reply(404, A.BadRefreshMessage))
    ensures Truthy(cookie) && FindByRefreshToken(users, cookie.value).Some? ==>
              var i := FindByRefreshToken(users, cookie.value).value;
              r == (users[i := users[i].(refreshToken := None)], Success(200, A.LoggedOutMessage, NoBody, [ClearCookie(A.RefreshCookie)]))
  {
    if !Truthy(cookie) then (users, Reply(401, A.NoRefreshMessage))
    else
      match FindByRefreshToken(users, cookie.value)
      case None => (users, Reply(404, A.BadRefreshMessage))
      case Some(i) => (users[i := users[i].(refreshToken := None)], Success(200, A.LoggedOutMessage, NoBody, [ClearCookie(A.RefreshCookie)]))
  }

  /** `forgotPassword`: the user gets the digest as reset token and a deadline fifteen minutes on. */
  function ForgotPassword(users: seq<LegacyUser>, email: Option<string>, digest: string, now: int): (r: (seq<LegacyUser>, Response))
    ensures !Truthy(email) ==> r == (users, Reply(400, A.EmailRequiredMessage))
    ensures Truthy(email) && FindByEmail(users, email.value).None? ==> r == (users, Reply(404, A.UserNotFoundMessage))
    ensures Truthy(email) && FindByEmail(users, email.value).Some? ==>
              var i := FindByEmail(users, email.value).value;
              r == (users[i := users[i].(resetPasswordToken := Some(digest), resetPasswordExpires := Some(now + ResetWindowMs))],
                    Success(200, A.ResetRequestedMessage, NoBody, []))
  {
    if !Truthy(email) then (users, Reply(400, A.EmailRequiredMessage))
    else
      match FindByEmail(users, email.value)
      case None => (users, Reply(404, A.UserNotFoundMessage))
      case Some(i) =>
        (users[i := users[i].(resetPasswordToken := Some(digest), resetPasswordExpires := Some(now + ResetWindowMs))],
         Success(200, A.ResetRequestedMessage, NoBody, []))
  }

  /**
   * `resetPassword`: a token that matches no live reset throws a plain
   * `Error`, which reaches the error handler as a 500; a live one sets the
   * new password and clears the token and its deadline.
   */
  function ResetPassword(env: Env, users: seq<LegacyUser>, token: Option<string>, newPassword: Option<string>,
                         confirm: Option<string>, now: int): (r: (seq<LegacyUser>, Response))
    ensures !Truthy(token) || !Truthy(newPassword) || !Truthy(confirm) ==> r == (users, Reply(400, A.MissingResetMessage))
    ensures Truthy(token) && Truthy(newPassword) && Truthy(confirm) && newPassword != confirm ==> r == (users, Reply(400, A.MismatchMessage))
    ensures Truthy(token) && Truthy(newPassword) && newPassword == confirm && FindByResetToken(users, token.value, now).None? ==>
              r == (users, Thrown(Uncaught(ResetFailure))) && StatusOf(r.1) == 500
    ensures r.1.Success? ==>
              && Truthy(token) && FindByResetToken(users, token.value, now).Some?
              && var i := FindByResetToken(users, token.value, now).value;
              && r.0 == users[i := users[i].(password := env.hash(newPassword.value), resetPasswordToken := None, resetPasswordExpires := None)]
    ensures !r.1.Success? ==> r.0 == users
  {
    if !Truthy(token) || !Truthy(newPassword) || !Truthy(confirm) then (users, Reply(400, A.MissingResetMessage))
    else if newPassword != confirm then (users, Reply(400, A.MismatchMessage))
    else
      match FindByResetToken(users, token.value, now)
      case None => (users, Thrown(Uncaught(ResetFailure)))
      case Some(i) =>
        (users[i := users[i].(password := env.hash(newPassword.value), resetPasswordToken := None, resetPasswordExpires := None)],
         Success(200, A.ResetDoneMessage, NoBody, []))
  }
}
