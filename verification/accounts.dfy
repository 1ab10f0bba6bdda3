/**
 * The current account controller as a state machine over the user
 * collection: registration with an e-mailed verification code, verification,
 * resending the code, login with a stored refresh token, refreshing the
 * access token, logout, and the fifteen-minute password reset. E-mail
 * delivery is an effect this model drops.
 */
module Accounts {
  import opened Wrappers
  import opened JsString
  import opened Oracles
  import opened Errors
  import opened Http
  import opened LinkModel
  import opened UserModel
  import Hex

  const RefreshCookie: string := "refreshToken"
  /** Thirty days, in milliseconds. */
  const RefreshMaxAgeMs: int := 30 * 24 * 60 * 60 * 1000

  const MissingRegisterMessage: string := "Verifique se os campos nome, email, password e confirmPassword foram preenchidos."
  const MismatchMessage: string := "As senhas não coincidem."
  const EmailTakenMessage: string := "Email já cadastrado."
  const RegisteredMessage: string := "Usuário cadastrado com sucesso!"
  const MissingVerifyMessage: string := "Email e código são obrigatórios."
  const UserNotFoundMessage: string := "Usuário não encontrado."
  const AlreadyVerifiedMessage: string := "Usuário já verificado."
  const BadCodeMessage: string := "Código inválido."
  const VerifiedMessage: string := "E-mail verificado com sucesso!"
  const EmailRequiredMessage: string := "Email é obrigatório."
  const ResentMessage: string := "Código de verificação reenviado com sucesso."
  const MissingLoginMessage: string := "Verifique se os campos email e password foram preenchidos."
  const WrongPasswordMessage: string := "Senha incorreta."
  const LoggedInMessage: string := "Login bem-sucedido."
  const NoRefreshMessage: string := "Token de atualização não fornecido."
  const BadClaimsMessage: string := "Token inválido ou expirado."
  const BadRefreshMessage: string := "Token inválido."
  const RefreshedMessage: string := "Token atualizado com sucesso."
  const LoggedOutMessage: string := "Logout realizado com sucesso."
  const ResetRequestedMessage: string := "Redefinição de senha solicitada com sucesso."
  const MissingResetMessage: string := "Todos os campos são obrigatórios."
  const BadResetMessage: string := "Token inválido ou expirado"
  const ResetDoneMessage: string := "Senha redefinida com sucesso."
  /** What `jwt.verify` throws on a token that does not verify. */
  const JwtFailure: string := "JsonWebTokenError: invalid signature"
  const ValidationFailure: string := "ValidationError"

  /** `randomBytes(3).toString('hex').toUpperCase()`. */
  function VerificationCode(bytes: Hex.Random3): (c: string)
    ensures |c| == 6 && Hex.IsUpperHex(c)
    ensures Hex.Decode(c) == Some(bytes)
  {
    Hex.DecodeUpperEncode(bytes);
    Hex.ToUpper(Hex.Encode(bytes))
  }

  /** Every stored user has its own `_id`. */
  predicate UniqueIds(users: seq<User>) {
    forall i, j :: 0 <= i < |users| && 0 <= j < |users| && users[i].id == users[j].id ==> i == j
  }

  /** `findOne({ refreshToken })`. */
  function FindByRefreshToken(users: seq<User>, token: string): (r: Option<nat>)
    ensures r.Some? ==> r.value < |users| && users[r.value].refreshToken == Some(token)
    ensures r.None? ==> forall j :: 0 <= j < |users| ==> users[j].refreshToken != Some(token)
  {
    FindFirst(users, (u: User) => u.refreshToken == Some(token))
  }

  /** The reset token is live at `now`: stored, and its deadline strictly later. */
  predicate ResetLive(u: User, token: string, now: int) {
    u.resetPasswordToken == Some(token) && u.resetPasswordExpires.Some? && u.resetPasswordExpires.value > now
  }

  /** `findOne({ resetPasswordToken: token, resetPasswordExpires: { $gt: now } })`. */
  function FindByResetToken(users: seq<User>, token: string, now: int): (r: Option<nat>)
    ensures r.Some? ==> r.value < |users| && ResetLive(users[r.value], token, now)
    ensures r.None? ==> forall j :: 0 <= j < |users| ==> !ResetLive(users[j], token, now)
  {
    FindFirst(users, (u: User) => ResetLive(u, token, now))
  }

  datatype RegisterRequest = RegisterRequest(
    nome: Option<string>, email: Option<string>, password: Option<string>, confirmPassword: Option<string>)

  predicate RegisterComplete(req: RegisterRequest) {
    Truthy(req.nome) && Truthy(req.email) && Truthy(req.password) && Truthy(req.confirmPassword)
  }

  /**
   * `register` for the `_id` the database assigns, the three random bytes of
   * the code and instant `now`. Every refusal is decided before anything is
   * written; a success appends the new user, unverified, holding the code
   * and the refresh token the cookie carries.
   */
  function Register(env: Env, users: seq<User>, req: RegisterRequest, newId: UserId, bytes: Hex.Random3, now: int): (r: (seq<User>, Response))
    ensures !RegisterComplete(req) ==> r == (users, Thrown(BadRequestError(MissingRegisterMessage, map[])))
    ensures RegisterComplete(req) && req.password != req.confirmPassword ==>
              r == (users, Thrown(BadRequestError(MismatchMessage, map[])))
    ensures RegisterComplete(req) && req.password == req.confirmPassword && EmailTaken(users, req.email.value) ==>
              r == (users, Thrown(BadRequestError(EmailTakenMessage, map[])))
    ensures !r.1.Success? ==> r.0 == users
    ensures r.1.Success? <==>
              RegisterComplete(req) && req.password == req.confirmPassword && !EmailTaken(users, req.email.value) &&
              Truthy(Some(env.hash(req.password.value)))
    ensures r.1.Success? ==>
              && |r.0| == |users| + 1 && r.0[..|users|] == users
              && var u := r.0[|users|];
              && u.id == newId && u.email == req.email.value && u.nome == req.nome.value
              && u.password == env.hash(req.password.value)
              && !u.verificado && u.verificationCode == Some(VerificationCode(bytes))
              && u.refreshToken == Some(env.sign(RefreshSecret, newId, now))
              && r.1 == Success(201, RegisteredMessage, UserBody(newId),
                                [SetCookie(RefreshCookie, env.sign(RefreshSecret, newId, now), RefreshMaxAgeMs)])
  {
    if !RegisterComplete(req) then (users, Thrown(BadRequestError(MissingRegisterMessage, map[])))
    else if req.password != req.confirmPassword then (users, Thrown(BadRequestError(MismatchMessage, map[])))
    else if EmailTaken(users, req.email.value) then (users, Thrown(BadRequestError(EmailTakenMessage, map[])))
    else
      var draft := UserModel.Draft(req.nome, req.email, Some(env.hash(req.password.value)), Some(false), Some(VerificationCode(bytes)));
      match NewUser(users, newId, draft, now)
      case Err(_) => (users, Thrown(Uncaught(ValidationFailure)))
      case Ok(u) =>
        var token := env.sign(RefreshSecret, newId, now);
        (users + [u.(refreshToken := Some(token))],
         Success(201, RegisteredMessage, UserBody(newId), [SetCookie(RefreshCookie, token, RefreshMaxAgeMs)]))
  }

  /**
   * `verificarCodigo`: only an unverified user presenting its current code
   * is verified, and the code is then cleared so it cannot be replayed.
   */
  function VerifyCode(users: seq<User>, email: Option<string>, codigo: Option<string>): (r: (seq<User>, Response))
    ensures !Truthy(email) || !Truthy(codigo) ==> r == (users, Thrown(BadRequestError(MissingVerifyMessage, map[])))
    ensures Truthy(email) && Truthy(codigo) && FindByEmail(users, email.value).None? ==>
              r == (users, Thrown(NotFoundError(UserNotFoundMessage)))
    ensures Truthy(email) && Truthy(codigo) && FindByEmail(users, email.value).Some? ==>
              var i := FindByEmail(users, email.value).value;
              && (users[i].verificado ==> r == (users, Thrown(BadRequestError(AlreadyVerifiedMessage, map[]))))
              && (!users[i].verificado && users[i].verificationCode != codigo ==>
                    r == (users, Thrown(BadRequestError(BadCodeMessage, map[]))))
              && (!users[i].verificado && users[i].verificationCode == codigo ==>
                    r == (Replace(users, i, users[i].(verificado := true, verificationCode := None)),
                          Success(200, VerifiedMessage, NoBody, [])))
  {
    if !Truthy(email) || !Truthy(codigo) then (users, Thrown(BadRequestError(MissingVerifyMessage, map[])))
    else
      match FindByEmail(users, email.value)
      case None => (users, Thrown(NotFoundError(UserNotFoundMessage)))
      case Some(i) =>
        if users[i].verificado then (users, Thrown(BadRequestError(AlreadyVerifiedMessage, map[])))
        else if users[i].verificationCode != codigo then (users, Thrown(BadRequestError(BadCodeMessage, map[])))
        else (Replace(users, i, users[i].(verificado := true, verificationCode := None)), Success(200, VerifiedMessage, NoBody, []))
  }

  /** `reenviarCodigo`: the stored code is replaced and nothing else about the user changes. */
  function ResendCode(users: seq<User>, email: Option<string>, bytes: Hex.Random3): (r: (seq<User>, Response))
    ensures !Truthy(email) ==> r == (users, Thrown(BadRequestError(EmailRequiredMessage, map[])))
    ensures Truthy(email) && FindByEmail(users, email.value).None? ==> r == (users, Thrown(NotFoundError(UserNotFoundMessage)))
    ensures r.1.Success? ==>
              && Truthy(email) && FindByEmail(users, email.value).Some?
              && var i := FindByEmail(users, email.value).value;
              && r.0 == Replace(users, i, users[i].(verificationCode := Some(VerificationCode(bytes))))
              && r.0[i].verificado == users[i].verificado
    ensures Truthy(email) && FindByEmail(users, email.value).Some? ==> r.1.Success?
  {
    if !Truthy(email) then (users, Thrown(BadRequestError(EmailRequiredMessage, map[])))
    else
      match FindByEmail(users, email.value)
      case None => (users, Thrown(NotFoundError(UserNotFoundMessage)))
      case Some(i) =>
        (Replace(users, i, users[i].(verificationCode := Some(VerificationCode(bytes)))), Success(200, ResentMessage, NoBody, []))
  }

  /**
   * `login`: an unknown e-mail is NotFound and a wrong password Unauthorized;
   * a success stores a fresh refresh token and hands out an access token.
   * Whether the user is verified is not consulted.
   */
  function Login(env: Env, users: seq<User>, email: Option<string>, password: Option<string>, now: int): (r: (seq<User>, Response))
    ensures !Truthy(email) || !Truthy(password) ==> r == (users, Thrown(BadRequestError(MissingLoginMessage, map[])))
    ensures Truthy(email) && Truthy(password) && FindByEmail(users, email.value).None? ==>
              r == (users, Thrown(NotFoundError(UserNotFoundMessage)))
    ensures Truthy(email) && Truthy(password) && FindByEmail(users, email.value).Some? ==>
              var i := FindByEmail(users, email.value).value;
              var u := users[i];
              && (!env.matches(password.value, u.password) ==> r == (users, Thrown(UnauthorizedError(WrongPasswordMessage))))
              && (env.matches(password.value, u.password) ==>
                    var refresh := env.sign(RefreshSecret, u.id, now);
                    r == (Replace(users, i, u.(refreshToken := Some(refresh))),
                          Success(200, LoggedInMessage, TokenBody(env.sign(JwtSecret, u.id, now), u.id),
                                  [SetCookie(RefreshCookie, refresh, RefreshMaxAgeMs)])))
  {
    if !Truthy(email) || !Truthy(password) then (users, Thrown(BadRequestError(MissingLoginMessage, map[])))
    else
      match FindByEmail(users, email.value)
      case None => (users, Thrown(NotFoundError(UserNotFoundMessage)))
      case Some(i) =>
        var u := users[i];
        if !env.matches(password.value, u.password) then (users, Thrown(UnauthorizedError(WrongPasswordMessage)))
        else
          var refresh := env.sign(RefreshSecret, u.id, now);
          (Replace(users, i, u.(refreshToken := Some(refresh))),
           Success(200, LoggedInMessage, TokenBody(env.sign(JwtSecret, u.id, now), u.id), [SetCookie(RefreshCookie, refresh, RefreshMaxAgeMs)]))
  }

  /**
   * `refreshToken`: a new access token only for a refresh token that
   * verifies, names a user, and is the one that user has stored. A token
   * that does not verify escapes as a library error (500).
   */
  function Refresh(env: Env, users: seq<User>, cookie: Option<string>, now: int): (r: Response)
    ensures !Truthy(cookie) ==> r == Thrown(UnauthorizedError(NoRefreshMessage))
    ensures Truthy(cookie) && env.verify(RefreshSecret, cookie.value).None? ==> r == Thrown(Uncaught(JwtFailure))
    ensures Truthy(cookie) && env.verify(RefreshSecret, cookie.value).Some? && !Truthy(env.verify(RefreshSecret, cookie.value).value.userId) ==>
              r == Thrown(ForbiddenError(BadClaimsMessage))
    ensures r.Success? <==>
              && Truthy(cookie)
              && env.verify(RefreshSecret, cookie.value).Some?
              && var id := env.verify(RefreshSecret, cookie.value).value.userId;
              && Truthy(id)
              && FindById(users, id.value).Some?
              && users[FindById(users, id.value).value].refreshToken == cookie
    ensures r.Success? ==>
              var id := env.verify(RefreshSecret, cookie.value).value.userId.value;
              r == Success(200, RefreshedMessage, TokenBody(env.sign(JwtSecret, id, now), id), [])
  {
    if !Truthy(cookie) then Thrown(UnauthorizedError(NoRefreshMessage))
    else
      match env.verify(RefreshSecret, cookie.value)
      case None => Thrown(Uncaught(JwtFailure))
      case Some(claims) =>
        if !Truthy(claims.userId) then Thrown(ForbiddenError(BadClaimsMessage))
        else
          match FindById(users, claims.userId.value)
          case None => Thrown(ForbiddenError(BadRefreshMessage))
          case Some(i) =>
            if users[i].refreshToken != cookie then Thrown(ForbiddenError(BadRefreshMessage))
            else
              var u := users[i];
              Success(200, RefreshedMessage, TokenBody(env.sign(JwtSecret, u.id, now), u.id), [])
  }

  /** `logout`: the user holding the presented refresh token loses it, and the cookie is cleared. */
  function Logout(users: seq<User>, cookie: Option<string>): (r: (seq<User>, Response))
    ensures !Truthy(cookie) ==> r == (users, Thrown(UnauthorizedError(NoRefreshMessage)))
    ensures Truthy(cookie) && FindByRefreshToken(users, cookie.value).None? ==> r == (users, Thrown(NotFoundError(BadRefreshMessage)))
    ensures Truthy(cookie) && FindByRefreshToken(users, cookie.value).Some? ==>
              var i := FindByRefreshToken(users, cookie.value).value;
              r == (Replace(users, i, users[i].(refreshToken := None)),
                    Success(200, LoggedOutMessage, NoBody, [ClearCookie(RefreshCookie)]))
  {
    if !Truthy(cookie) then (users, Thrown(UnauthorizedError(NoRefreshMessage)))
    else
      match FindByRefreshToken(users, cookie.value)
      case None => (users, Thrown(NotFoundError(BadRefreshMessage)))
      case Some(i) =>
        (Replace(users, i, users[i].(refreshToken := None)), Success(200, LoggedOutMessage, NoBody, [ClearCookie(RefreshCookie)]))
  }

  /**
   * `forgotPassword` with the digest the source derives from the user id,
   * the clock and twenty random bytes: the user gets that token and a
   * deadline fifteen minutes on.
   */
  function ForgotPassword(users: seq<User>, email: Option<string>, digest: string, now: int): (r: (seq<User>, Response))
    ensures !Truthy(email) ==> r == (users, Thrown(BadRequestError(EmailRequiredMessage, map[])))
    ensures Truthy(email) && FindByEmail(users, email.value).None? ==> r == (users, Thrown(NotFoundError(UserNotFoundMessage)))
    ensures Truthy(email) && FindByEmail(users, email.value).Some? ==>
              var i := FindByEmail(users, email.value).value;
              r == (Replace(users, i, users[i].(resetPasswordToken := Some(digest), resetPasswordExpires := Some(now + ResetWindowMs))),
                    Success(200, ResetRequestedMessage, NoBody, []))
  {
    if !Truthy(email) then (users, Thrown(BadRequestError(EmailRequiredMessage, map[])))
    else
      match FindByEmail(users, email.value)
      case None => (users, Thrown(NotFoundError(UserNotFoundMessage)))
      case Some(i) =>
        (Replace(users, i, users[i].(resetPasswordToken := Some(digest), resetPasswordExpires := Some(now + ResetWindowMs))),
         Success(200, ResetRequestedMessage, NoBody, []))
  }

  /**
   * `resetPassword`: the new password is stored (hashed) only for a user
   * whose reset token matches and whose deadline is still ahead; the token
   * and the deadline are then cleared.
   */
  function ResetPassword(env: Env, users: seq<User>, token: Option<string>, newPassword: Option<string>,
                         confirm: Option<string>, now: int): (r: (seq<User>, Response))
    ensures !Truthy(token) || !Truthy(newPassword) || !Truthy(confirm) ==>
              r == (users, Thrown(BadRequestError(MissingResetMessage, map[])))
    ensures Truthy(token) && Truthy(newPassword) && Truthy(confirm) && newPassword != confirm ==>
              r == (users, Thrown(BadRequestError(MismatchMessage, map[])))
    ensures r.1.Success? <==>
              Truthy(token) && Truthy(newPassword) && newPassword == confirm && FindByResetToken(users, token.value, now).Some?
    ensures !r.1.Success? ==> r.0 == users
    ensures r.1.Success? ==>
              var i := FindByResetToken(users, token.value, now).value;
              r.0 == Replace(users, i, users[i].(password := env.hash(newPassword.value),
                                                 resetPasswordToken := None, resetPasswordExpires := None))
  {
    if !Truthy(token) || !Truthy(newPassword) || !Truthy(confirm) then (users, Thrown(BadRequestError(MissingResetMessage, map[])))
    else if newPassword != confirm then (users, Thrown(BadRequestError(MismatchMessage, map[])))
    else
      match FindByResetToken(users, token.value, now)
      case None => (users, Thrown(BadRequestError(BadResetMessage, map[])))
      case Some(i) =>
        (Replace(users, i, users[i].(password := env.hash(newPassword.value), resetPasswordToken := None, resetPasswordExpires := None)),
         Success(200, ResetDoneMessage, NoBody, []))
  }
}
