/**
 * `redirectPublicLink`: the public route reads only the cache and redirects
 * only links that are neither private nor password-protected.
 */
module LinkPublic {
  import opened Wrappers
  import opened JsString
  import opened Oracles
  import opened Errors
  import opened Http
  import opened LinkModel
  import C = Cache
  import LinkResolve

  const NotFoundMessage: string := "Link não encontrado."
  const NotPublicMessage: string := "Link não é público."
  const ParseFailure: string := "SyntaxError: Unexpected token in JSON"

  function RedirectPublic(cache: C.Cache, key: string, now: int): (r: Response)
    ensures C.Miss(cache, key, now) ==> r == Reply(404, NotFoundMessage)
    ensures r.Redirect? <==>
              && !C.Miss(cache, key, now) && C.Get(cache, key, now).value.LinkJson?
              && !C.Get(cache, key, now).value.view.privado
              && !Truthy(C.Get(cache, key, now).value.view.senha)
    ensures r.Redirect? ==> r == Redirect(C.Get(cache, key, now).value.view.url, [])
    ensures !C.Miss(cache, key, now) && C.Get(cache, key, now).value.LinkJson? && !r.Redirect? ==>
              r == Reply(400, NotPublicMessage)
  {
    if C.Miss(cache, key, now) then Reply(404, NotFoundMessage)
    else
      match C.Get(cache, key, now).value
      case Text(_) => Thrown(Uncaught(ParseFailure))
      case LinkJson(v) =>
        if v.privado || Truthy(v.senha) then Reply(400, NotPublicMessage)
        else Redirect(v.url, [])
  }

  /**
   * The public route is the general redirect route restricted to open links:
   * whatever it redirects, the general route redirects to the same place for
   * any caller and any password, and the general route redirects beyond it
   * only to a private link's owner.
   */
  lemma PublicAgreesWithRedirect(env: Env, cache: C.Cache, key: string, senha: Option<string>,
                                 caller: Option<UserId>, now: int, base: string)
    ensures var p := RedirectPublic(cache, key, now);
            var g := LinkResolve.RedirectToLinks(env, cache, key, senha, caller, now, base);
            && (p.Redirect? ==> g == p)
            && (!p.Redirect? && g.Redirect? ==>
                  && C.Get(cache, key, now).Some? && C.Get(cache, key, now).value.LinkJson?
                  && C.Get(cache, key, now).value.view.privado
                  && Truthy(caller) && C.Get(cache, key, now).value.view.criadoPor == caller)
  {
  }
}
