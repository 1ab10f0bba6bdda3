/**
 * The client's `redirectToLink`: it asks the server what kind of link a key
 * is, then picks where to send the browser. A private link is resolved by
 * the private route and the browser goes straight to its URL; a password
 * link goes to the protected route with the password in the query, or asks
 * for the password first; any other link goes to the public route.
 */
module LinkRouting {
  import opened Wrappers
  import opened JsString
  import opened Http

  const NoUrlMessage: string := "Não foi possível obter a URL de redirecionamento."

  datatype Failure =
    | HttpFailure(status: int)
      /** The private route answered without a URL. */
    | NoUrl

  datatype Route =
    | Navigate(href: string)
    | NeedsPassword
    | Failed(failure: Failure)

  /** `linkInfo.privado`: read from a check answer's body, `undefined` (falsy) in any other body. */
  predicate IsPrivate(check: Response)
    requires check.Success?
  {
    check.body.CheckBody? && check.body.privado
  }

  predicate NeedsSenha(check: Response)
    requires check.Success?
  {
    check.body.CheckBody? && check.body.senhaNecessaria
  }

  function ProtectedHref(apiBase: string, key: string, senha: string): string {
    apiBase + "/protected/" + key + "?senha=" + senha
  }

  /**
   * A password the protected route's query receives unchanged although the
   * client does not encode it. Express's query parser would read `+` as a
   * space, split at `&` and decode `%xx`, and the browser never sends what
   * follows `#`.
   */
  predicate QuerySafe(senha: string) {
    forall i :: 0 <= i < |senha| ==> senha[i] != '+' && senha[i] != '&' && senha[i] != '#' && senha[i] != '%'
  }

  function PublicHref(apiBase: string, key: string): string {
    apiBase + "/r/" + key
  }

  /** The URL in a private-route answer, when it carries a non-empty one. */
  function PrivateUrl(answer: Response): Option<string> {
    if answer.Success? && answer.body.UrlBody? && answer.body.url != "" then Some(answer.body.url) else None
  }

  /**
   * The routing decision, given the check route's answer and, for private
   * links, the private route's answer. A failing request is rethrown; the
   * private flag is consulted before the password flag.
   */
  function RedirectToLink(apiBase: string, key: string, check: Response, privateAnswer: Response,
                          senha: Option<string>): (r: Route)
    ensures !check.Success? ==> r == Failed(HttpFailure(StatusOf(check)))
    ensures check.Success? && IsPrivate(check) ==>
              && (!privateAnswer.Success? ==> r == Failed(HttpFailure(StatusOf(privateAnswer))))
              && (privateAnswer.Success? ==>
                    (PrivateUrl(privateAnswer).Some? ==> r == Navigate(PrivateUrl(privateAnswer).value)) &&
                    (PrivateUrl(privateAnswer).None? ==> r == Failed(NoUrl)))
    ensures r.NeedsPassword? <==> check.Success? && !IsPrivate(check) && NeedsSenha(check) && !Truthy(senha)
    ensures check.Success? && !IsPrivate(check) && NeedsSenha(check) && Truthy(senha) ==>
              r == Navigate(ProtectedHref(apiBase, key, senha.value))
    ensures check.Success? && !IsPrivate(check) && !NeedsSenha(check) ==> r == Navigate(PublicHref(apiBase, key))
  {
    if !check.Success? then Failed(HttpFailure(StatusOf(check)))
    else if IsPrivate(check) then
      if !privateAnswer.Success? then Failed(HttpFailure(StatusOf(privateAnswer)))
      else
        match PrivateUrl(privateAnswer)
        case None => Failed(NoUrl)
        case Some(u) => Navigate(u)
    else if NeedsSenha(check) then
      if !Truthy(senha) then NeedsPassword else Navigate(ProtectedHref(apiBase, key, senha.value))
    else Navigate(PublicHref(apiBase, key))
  }
}
