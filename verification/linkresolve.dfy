/**
 * `redirectToLinks` and `checkLink`: resolution that reads only the cache.
 * The cache entry's expiry is therefore the only expiry these routes know.
 */
module LinkResolve {
  import opened Wrappers
  import opened JsString
  import opened Oracles
  import opened Errors
  import opened Http
  import opened LinkModel
  import C = Cache

  const NotFoundMessage: string := "Link não encontrado."
  const AuthNeededMessage: string := "Autenticação necessária."
  const OtherOwnerMessage: string := "Acesso negado. Este link pertence a outro usuário."
  const PasswordNeededMessage: string := "Senha necessária para acessar o link."
  const WrongPasswordMessage: string := "Senha incorreta."
  const AuthorisedMessage: string := "Link autorizado"
  const FoundMessage: string := "Link encontrado"
  /** What `JSON.parse` throws on a cached bare URL. */
  const ParseFailure: string := "SyntaxError: Unexpected token in JSON"

  /**
   * Who may obtain a link's destination: the owner alone when it is private,
   * and only with a matching password when it has one.
   */
  predicate MayFollow(env: Env, v: LinkView, senha: Option<string>, caller: Option<UserId>) {
    && OwnerPasses(v, caller)
    && (Truthy(v.senha) ==> Truthy(senha) && env.matches(senha.value, v.senha.value))
  }

  /** The private-link gate alone: a public link, or a private one asked for by its owner. */
  predicate OwnerPasses(v: LinkView, caller: Option<UserId>) {
    v.privado ==> Truthy(caller) && v.criadoPor == caller
  }

  function AuthRequired(): AppError {
    BadRequestError(AuthNeededMessage, map["reason" := "auth_required", "redirect" := "/login"])
  }

  function PasswordRequired(base: string, key: string): AppError {
    BadRequestError(PasswordNeededMessage, map["reason" := "password_required", "redirect" := base + "/password/" + key])
  }

  /**
   * The decision on a parsed link: the private checks come first, then the
   * password checks; a password link that passes is answered with its URL
   * as JSON (201), any other link that passes is redirected to.
   */
  function Decide(env: Env, v: LinkView, key: string, senha: Option<string>, caller: Option<UserId>, base: string): (r: Response)
    ensures r.Redirect? || r.Success? <==> MayFollow(env, v, senha, caller)
    ensures r.Redirect? ==> r == Redirect(v.url, []) && !Truthy(v.senha)
    ensures r.Success? ==> r == Success(201, AuthorisedMessage, UrlBody(v.url), []) && Truthy(v.senha)
    ensures v.privado && !Truthy(caller) ==> r == Thrown(AuthRequired())
    ensures v.privado && Truthy(caller) && v.criadoPor != caller ==>
              ThrownKind(r, Forbidden) && r.error.message == OtherOwnerMessage && r.error.statusCode == 403
    ensures OwnerPasses(v, caller) && Truthy(v.senha) && !Truthy(senha) ==>
              r == Thrown(PasswordRequired(base, key))
    ensures Truthy(v.senha) && Truthy(senha) && !env.matches(senha.value, v.senha.value) && OwnerPasses(v, caller) ==>
              r == Thrown(BadRequestError(WrongPasswordMessage, map[]))
  {
    if v.privado && !Truthy(caller) then Thrown(AuthRequired())
    else if v.privado && v.criadoPor != caller then Thrown(ForbiddenError(OtherOwnerMessage))
    else if Truthy(v.senha) then
      if !Truthy(senha) then Thrown(PasswordRequired(base, key))
      else if !env.matches(senha.value, v.senha.value) then Thrown(BadRequestError(WrongPasswordMessage, map[]))
      else Success(201, AuthorisedMessage, UrlBody(v.url), [])
    else Redirect(v.url, [])
  }

  /**
   * `redirectToLinks` at instant `now`: a key with no live cache entry is
   * NotFound, whatever the link collection holds.
   */
  function RedirectToLinks(env: Env, cache: C.Cache, key: string, senha: Option<string>, caller: Option<UserId>,
                           now: int, base: string): (r: Response)
    ensures C.Miss(cache, key, now) ==> r == Thrown(NotFoundError(NotFoundMessage))
    ensures r.Redirect? || r.Success? ==>
              && key in cache && now <= cache[key].expiresAt
              && cache[key].value.LinkJson?
              && MayFollow(env, cache[key].value.view, senha, caller)
    ensures C.Get(cache, key, now) == Some(C.LinkJson(CachedView(cache, key))) &&
            MayFollow(env, CachedView(cache, key), senha, caller) ==>
              (r.Redirect? && r.location == CachedView(cache, key).url) ||
              (r.Success? && r.body == UrlBody(CachedView(cache, key).url))
  {
    if C.Miss(cache, key, now) then Thrown(NotFoundError(NotFoundMessage))
    else
      match C.Get(cache, key, now).value
      case Text(_) => Thrown(Uncaught(ParseFailure))
      case LinkJson(v) => Decide(env, v, key, senha, caller, base)
  }

  /** The link view cached under `key`, when a link view is what is cached there. */
  function CachedView(cache: C.Cache, key: string): LinkView {
    if key in cache && cache[key].value.LinkJson? then cache[key].value.view else LinkView("", None, false, None)
  }

  /**
   * `checkLink`: the flags of a cached link, and its URL only when it has no
   * password. Nothing about the caller is consulted.
   */
  function CheckLink(cache: C.Cache, key: string, now: int): (r: Response)
    ensures C.Miss(cache, key, now) ==> r == Thrown(NotFoundError(NotFoundMessage))
    ensures r.Success? ==>
              && C.Get(cache, key, now).Some? && C.Get(cache, key, now).value.LinkJson?
              && var v := C.Get(cache, key, now).value.view;
              && r.status == 200 && r.message == FoundMessage
              && r.body.CheckBody? && r.body.privado == v.privado && r.body.senhaNecessaria == Truthy(v.senha)
              && (r.body.checkUrl.None? <==> Truthy(v.senha))
              && (r.body.checkUrl.Some? ==> r.body.checkUrl.value == v.url)
    ensures C.Get(cache, key, now).Some? && C.Get(cache, key, now).value.LinkJson? ==> r.Success?
  {
    if C.Miss(cache, key, now) then Thrown(NotFoundError(NotFoundMessage))
    else
      match C.Get(cache, key, now).value
      case Text(_) => Thrown(Uncaught(ParseFailure))
      case LinkJson(v) =>
        Success(200, FoundMessage, CheckBody(v.privado, Truthy(v.senha), if Truthy(v.senha) then None else Some(v.url)), [])
  }

  /**
   * A private link has no password (the creation policy forbids it), so the
   * check route discloses its destination to any caller while the redirect
   * route refuses everyone but the owner.
   */
  lemma CheckLinkDisclosesPrivateUrl(env: Env, cache: C.Cache, key: string, now: int, stranger: Option<UserId>, base: string)
    requires C.Get(cache, key, now).Some? && C.Get(cache, key, now).value.LinkJson?
    requires var v := C.Get(cache, key, now).value.view; v.privado && v.senha.None? && v.criadoPor != stranger
    ensures CheckLink(cache, key, now).body.checkUrl == Some(C.Get(cache, key, now).value.view.url)
    ensures RedirectToLinks(env, cache, key, None, stranger, now, base).Thrown?
  {
  }
}
