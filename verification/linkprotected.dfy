/**
 * `redirectProtectedLink`: the password route. The link comes from the cache
 * or, on a miss, from the collection (and is cached for an hour); then the
 * password decides, with plain status replies for each refusal.
 */
module LinkProtected {
  import opened Wrappers
  import opened JsString
  import opened Oracles
  import opened Errors
  import opened Http
  import opened LinkModel
  import opened AppState
  import opened LinkLookup
  import C = Cache

  const NotFoundMessage: string := "Link não encontrado."
  const NoPasswordMessage: string := "Este link não requer senha."
  const PasswordMissingMessage: string := "Senha obrigatória para acesso."
  const WrongPasswordMessage: string := "Senha incorreta."
  const ParseFailure: string := "SyntaxError: Unexpected token in JSON"

  /** The decision on a link: only a matching password is redirected, to the link's URL. */
  function Decide(env: Env, v: LinkView, senha: Option<string>): (r: Response)
    ensures r.Redirect? <==> Truthy(v.senha) && Truthy(senha) && env.matches(senha.value, v.senha.value)
    ensures r.Redirect? ==> r == Redirect(v.url, [])
    ensures !Truthy(v.senha) ==> r == Reply(400, NoPasswordMessage)
    ensures Truthy(v.senha) && !Truthy(senha) ==> r == Reply(400, PasswordMissingMessage)
    ensures Truthy(v.senha) && Truthy(senha) && !env.matches(senha.value, v.senha.value) ==> r == Reply(401, WrongPasswordMessage)
  {
    if !Truthy(v.senha) then Reply(400, NoPasswordMessage)
    else if !Truthy(senha) then Reply(400, PasswordMissingMessage)
    else if !env.matches(senha.value, v.senha.value) then Reply(401, WrongPasswordMessage)
    else Redirect(v.url, [])
  }

  /** `redirectProtectedLink` at instant `now`, with the `senha` query parameter. */
  function RedirectProtected(env: Env, st: State, key: string, senha: Option<string>, now: int): (r: (State, Response))
    ensures r.0 == st.(cache := CacheAfter(st.cache, Find(st.links, st.cache, key, now)))
    ensures Find(st.links, st.cache, key, now).Absent? ==> r.1 == Reply(404, NotFoundMessage)
    ensures Find(st.links, st.cache, key, now).Garbled? ==> r.1.Thrown? && StatusOf(r.1) == 500
    ensures Find(st.links, st.cache, key, now).Cached? || Find(st.links, st.cache, key, now).Loaded? ==>
              r.1 == Decide(env, Find(st.links, st.cache, key, now).view, senha)
  {
    var l := Find(st.links, st.cache, key, now);
    var st' := st.(cache := CacheAfter(st.cache, l));
    match l
    case Absent => (st', Reply(404, NotFoundMessage))
    case Garbled => (st', Thrown(Uncaught(ParseFailure)))
    case Cached(v) => (st', Decide(env, v, senha))
    case Loaded(v, _) => (st', Decide(env, v, senha))
  }

  /**
   * Under the state invariant the answer for a stored link depends only on
   * the stored link, never on whether its cache entry was still live.
   */
  lemma ProtectedAnswersFromStore(env: Env, st: State, key: string, senha: Option<string>, now: int)
    requires Valid(st) && key in st.links
    ensures RedirectProtected(env, st, key, senha, now).1 == Decide(env, View(st.links[key]), senha)
    ensures Valid(RedirectProtected(env, st, key, senha, now).0)
  {
    FindAgreesWithStore(st, key, now);
    FindPreservesValid(st, key, now);
  }

  /**
   * Nothing on this route reads `expira_em`: once the cache entry is gone the
   * stored link is served again with the right password, however long ago
   * its expiry instant passed.
   */
  lemma ServesExpiredLink(env: Env, st: State, key: string, senha: Option<string>, now: int)
    requires Valid(st) && key in st.links
    requires C.Miss(st.cache, key, now)
    requires st.links[key].expiraEm.Some? && st.links[key].expiraEm.value <= now
    requires Truthy(st.links[key].senha) && Truthy(senha) && env.matches(senha.value, st.links[key].senha.value)
    ensures RedirectProtected(env, st, key, senha, now).1 == Redirect(st.links[key].url, [])
  {
    ProtectedAnswersFromStore(env, st, key, senha, now);
  }
}
