/**
 * `redirectPrivateLink`: the owner-only route. The `accessToken` cookie must
 * be present and verify under the access secret before the link is looked
 * up (cache first, then the collection with a one-hour refill); only the
 * owner named in the token gets the URL.
 */
module LinkPrivate {
  import opened Wrappers
  import opened JsString
  import opened Oracles
  import opened Errors
  import opened Http
  import opened LinkModel
  import opened AppState
  import opened LinkLookup
  import C = Cache

  const NoTokenMessage: string := "Token de acesso não fornecido."
  const BadTokenMessage: string := "Token inválido ou expirado."
  const NotFoundMessage: string := "Link não encontrado."
  const NotPrivateMessage: string := "Este link não é privado."
  const OtherOwnerMessage: string := "Acesso negado. Link pertence a outro usuário."
  const RedirectingMessage: string := "Redirecionando."
  const ParseFailure: string := "SyntaxError: Unexpected token in JSON"
  /** `criado_por.toString()` on a link without an owner. */
  const NullOwnerFailure: string := "TypeError: Cannot read properties of null (reading 'toString')"

  /** The decision on a link for the `userId` claim of a verified token. */
  function Decide(v: LinkView, userId: Option<string>): (r: Response)
    ensures r.Success? <==> v.privado && v.criadoPor.Some? && v.criadoPor == userId
    ensures r.Success? ==> r == Success(200, RedirectingMessage, UrlBody(v.url), [])
    ensures !v.privado ==> r == Thrown(BadRequestError(NotPrivateMessage, map[]))
    ensures v.privado && v.criadoPor.Some? && v.criadoPor != userId ==> r == Thrown(UnauthorizedError(OtherOwnerMessage))
  {
    if !v.privado then Thrown(BadRequestError(NotPrivateMessage, map[]))
    else if v.criadoPor.None? then Thrown(Uncaught(NullOwnerFailure))
    else if v.criadoPor != userId then Thrown(UnauthorizedError(OtherOwnerMessage))
    else Success(200, RedirectingMessage, UrlBody(v.url), [])
  }

  /**
   * `redirectPrivateLink` with the request's `accessToken` cookie. The token
   * is checked before any lookup, so a refused token leaves the cache alone.
   */
  function RedirectPrivate(env: Env, st: State, key: string, accessToken: Option<string>, now: int): (r: (State, Response))
    ensures !Truthy(accessToken) ==> r == (st, Thrown(UnauthorizedError(NoTokenMessage)))
    ensures Truthy(accessToken) && env.verify(AccessSecret, accessToken.value).None? ==>
              r == (st, Thrown(UnauthorizedError(BadTokenMessage)))
    ensures Truthy(accessToken) && env.verify(AccessSecret, accessToken.value).Some? ==>
              && var l := Find(st.links, st.cache, key, now);
              && r.0 == st.(cache := CacheAfter(st.cache, l))
              && (l.Absent? ==> r.1 == Thrown(NotFoundError(NotFoundMessage)))
              && (l.Cached? || l.Loaded? ==> r.1 == Decide(l.view, env.verify(AccessSecret, accessToken.value).value.userId))
    ensures r.1.Success? ==> Truthy(accessToken) && env.verify(AccessSecret, accessToken.value).Some?
  {
    if !Truthy(accessToken) then (st, Thrown(UnauthorizedError(NoTokenMessage)))
    else
      match env.verify(AccessSecret, accessToken.value)
      case None => (st, Thrown(UnauthorizedError(BadTokenMessage)))
      case Some(claims) =>
        var l := Find(st.links, st.cache, key, now);
        var st' := st.(cache := CacheAfter(st.cache, l));
        match l
        case Absent => (st', Thrown(NotFoundError(NotFoundMessage)))
        case Garbled => (st', Thrown(Uncaught(ParseFailure)))
        case Cached(v) => (st', Decide(v, claims.userId))
        case Loaded(v, _) => (st', Decide(v, claims.userId))
  }

  /**
   * Under the state invariant a stored link's URL is handed out exactly to
   * a verified token whose `userId` is the link's owner, warm cache or cold,
   * and the refill keeps the invariant.
   */
  lemma PrivateOnlyForOwner(env: Env, st: State, key: string, accessToken: Option<string>, now: int)
    requires Valid(st) && key in st.links
    ensures var r := RedirectPrivate(env, st, key, accessToken, now);
            && (r.1.Success? <==>
                  && Truthy(accessToken)
                  && env.verify(AccessSecret, accessToken.value).Some?
                  && st.links[key].privado
                  && st.links[key].criadoPor == env.verify(AccessSecret, accessToken.value).value.userId)
            && (r.1.Success? ==> r.1.body == UrlBody(st.links[key].url))
            && Valid(r.0)
  {
    FindAgreesWithStore(st, key, now);
    FindPreservesValid(st, key, now);
  }
}
