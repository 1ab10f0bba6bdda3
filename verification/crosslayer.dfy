/**
 * The client and the server together: what the form sends is accepted by
 * the creation route, what creation caches is what resolution serves, and
 * the client's routing choice lands on the server route that opens the link.
 */
module CrossLayer {
  import opened Wrappers
  import opened JsString
  import opened Oracles
  import opened Errors
  import opened Http
  import opened LinkModel
  import opened AppState
  import C = Cache
  import Hex
  import Helpers
  import LinkCreate
  import LinkResolve
  import LinkProtected
  import LinkPrivate
  import LinkPublic
  import LinkForm
  import LinkRouting
  import Handshake

  /** The JSON body the form posts, as the creation route reads it. */
  function RequestOf(p: LinkForm.Payload): LinkCreate.ShortenRequest {
    LinkCreate.ShortenRequest(Some(p.url), Some(p.senha), Some(p.nome), Some(p.expiraEm), JBool(p.privado))
  }

  /**
   * The server clock is not before the epoch and lies at least the longest
   * lifetime the form allows short of the end of the range a `Date` holds.
   */
  predicate PlausibleClock(now: int) {
    0 <= now && now + LinkForm.MaxDays * LinkCreate.DayMs <= MaxTimeMs
  }

  /** Under such a clock, every lifetime the form can ask for is a valid date. */
  lemma FormLifetimeStorable(req: LinkCreate.ShortenRequest, now: int)
    requires PlausibleClock(now) && req.privado.JBool?
    requires 1 <= LinkCreate.LifetimeDays(req.expiraEm) <= LinkForm.MaxDays
    ensures LinkCreate.Storable(req, now)
  {
    assert LinkCreate.DayMs == 86_400_000;
  }

  /** The lifetime the server gives a form's days field: the number typed, seven when it is empty or zero. */
  lemma LifetimeOfField(f: LinkForm.Form)
    requires LinkForm.DaysOk(f)
    ensures var d := LinkCreate.LifetimeDays(Some(Trim(f.expiraEm)));
            1 <= d <= LinkForm.MaxDays
  {
    if f.expiraEm == "" {
      EmptyLifetime();
    } else {
      var n: nat :| n <= LinkForm.MaxDays && f.expiraEm == ToDecimal(n);
      NumeralLifetime(n);
    }
  }

  /** A days field holding `n` means `n` days, or the default week for zero. */
  lemma NumeralLifetime(n: nat)
    ensures LinkCreate.LifetimeDays(Some(Trim(ToDecimal(n)))) == (if n == 0 then LinkCreate.DefaultDays else n)
  {
    TrimNumeral(ToDecimal(n));
    LinkCreate.LifetimeOfDecimal(n);
  }

  /** An empty days field means the default week. */
  lemma EmptyLifetime()
    ensures LinkCreate.LifetimeDays(Some(Trim(""))) == LinkCreate.DefaultDays
  {
    assert Trim("") == "";
    assert ParseUnsigned("").None?;
  }

  /**
   * What the corrected form sends passes every check the creation route
   * makes before writing: a signed-out form sends neither a name nor the
   * private flag, the two switches are never both on, a password sent is
   * at least six characters long, and the lifetime is one to 365 days.
   */
  lemma FormRequestPasses(env: Env, f: LinkForm.Form, signedIn: bool, caller: Option<UserId>)
    requires LinkForm.Sane(f)
    requires LinkForm.Submit(env.validUrl, f, signedIn).Ok?
    requires signedIn <==> caller.Some?
    requires env.validUrl(Trim(f.url)) && !env.validUrl("")
    ensures var req := RequestOf(LinkForm.Submit(env.validUrl, f, signedIn).value);
            && LinkCreate.Precheck(env, req, caller).None?
            && !LinkCreate.ShortSenha(req)
            && 1 <= LinkCreate.LifetimeDays(req.expiraEm) <= LinkForm.MaxDays
  {
    var p := LinkForm.Submit(env.validUrl, f, signedIn).value;
    PayloadPrecheck(env, p, caller);
    LifetimeOfField(f);
  }

  /** The checks before the key loop, for a body whose fields hold what the corrected form sends. */
  lemma PayloadPrecheck(env: Env, p: LinkForm.Payload, caller: Option<UserId>)
    requires caller.None? ==> p.nome == "" && !p.privado
    requires p.privado ==> p.senha == ""
    requires env.validUrl(p.url) && !env.validUrl("")
    ensures LinkCreate.Precheck(env, RequestOf(p), caller).None?
  {
    var req := RequestOf(p);
    if caller.None? {
      assert Trim("") == "";
      assert !LinkCreate.NonBlank(req.nome);
    }
    assert p.url != "";
  }

  /**
   * A submission the corrected form accepts is created by the server (when
   * the trimmed URL parses and a fresh key is drawn). The link is private
   * as asked and carries a password exactly when the password field was
   * on; its lifetime is the one `FormRequestPasses` bounds.
   */
  lemma FormRequestCreated(env: Env, st: State, f: LinkForm.Form, signedIn: bool, caller: Option<UserId>,
                           draws: seq<Hex.Random3>, now: int, base: string)
    requires LinkForm.Sane(f)
    requires LinkForm.Submit(env.validUrl, f, signedIn).Ok?
    requires signedIn <==> caller.Some?
    requires env.validUrl(Trim(f.url)) && !env.validUrl("")
    requires LinkCreate.FreshKeyIndex(st.links, draws).Some?
    requires PlausibleClock(now)
    ensures var p := LinkForm.Submit(env.validUrl, f, signedIn).value;
            var r := LinkCreate.Shorten(env, st, RequestOf(p), caller, draws, now, base);
            var key := Helpers.GenerateId(draws[LinkCreate.FreshKeyIndex(st.links, draws).value]);
            && r.1.Success?
            && r.0.links[key].privado == (signedIn && f.privado)
            && (r.0.links[key].senha.Some? <==> f.senhaVisible)
  {
    var p := LinkForm.Submit(env.validUrl, f, signedIn).value;
    var req := RequestOf(p);
    FormRequestPasses(env, f, signedIn, caller);
    FormLifetimeStorable(req, now);
    ValidRequestCreated(env, st, req, caller, draws, now, base);
  }

  /** A request that passes every check, under a fresh key, creates a link with the asked privacy and password. */
  lemma ValidRequestCreated(env: Env, st: State, req: LinkCreate.ShortenRequest, caller: Option<UserId>,
                            draws: seq<Hex.Random3>, now: int, base: string)
    requires LinkCreate.Precheck(env, req, caller).None? && !LinkCreate.ShortSenha(req)
    requires LinkCreate.Storable(req, now) && LinkCreate.LifetimeDays(req.expiraEm) > 0
    requires LinkCreate.FreshKeyIndex(st.links, draws).Some?
    ensures var r := LinkCreate.Shorten(env, st, req, caller, draws, now, base);
            var key := Helpers.GenerateId(draws[LinkCreate.FreshKeyIndex(st.links, draws).value]);
            && r.1.Success?
            && Some(r.0.links[key].privado) == CastBoolean(req.privado)
            && (r.0.links[key].senha.Some? <==> Truthy(req.senha))
  {
    var r := LinkCreate.Shorten(env, st, req, caller, draws, now, base);
    var key := Helpers.GenerateId(draws[LinkCreate.FreshKeyIndex(st.links, draws).value]);
    assert LinkCreate.Created(env, st, req, caller, key, now, false, r.0);
  }

  /**
   * The client's password check as written lets six spaces through; the
   * server receives an empty password and creates the link with none, so
   * the link meant to be protected opens for anyone.
   */
  lemma BlankPasswordCreatesOpenLink(env: Env, st: State, url: string, caller: Option<UserId>,
                                     draws: seq<Hex.Random3>, now: int, base: string)
    requires url != "" && env.validUrl(url) && env.validUrl(Trim(url)) && !env.validUrl("")
    requires LinkCreate.FreshKeyIndex(st.links, draws).Some?
    requires PlausibleClock(now)
    ensures var f := LinkForm.Form(url, "", "      ", "", false, true);
            && LinkForm.SubmitAsWritten(env.validUrl, f, caller.Some?).Ok?
            && var p := LinkForm.SubmitAsWritten(env.validUrl, f, caller.Some?).value;
            && var r := LinkCreate.Shorten(env, st, RequestOf(p), caller, draws, now, base);
            && var key := Helpers.GenerateId(draws[LinkCreate.FreshKeyIndex(st.links, draws).value]);
            && r.1.Success? && r.0.links[key].senha.None?
  {
    LinkForm.BlankPasswordPasses(env.validUrl, url, caller.Some?);
    var f := LinkForm.Form(url, "", "      ", "", false, true);
    var p := LinkForm.SubmitAsWritten(env.validUrl, f, caller.Some?).value;
    assert Trim("") == "";
    assert p.nome == "" && !p.privado && p.expiraEm == "";
    PayloadPrecheck(env, p, caller);
    EmptyLifetime();
    FormLifetimeStorable(RequestOf(p), now);
    OpenRequestCreatesOpenLink(env, st, RequestOf(p), caller, draws, now, base);
  }

  /** A valid request without a password and with a positive lifetime creates a link without a password. */
  lemma OpenRequestCreatesOpenLink(env: Env, st: State, req: LinkCreate.ShortenRequest, caller: Option<UserId>,
                                   draws: seq<Hex.Random3>, now: int, base: string)
    requires LinkCreate.Precheck(env, req, caller).None? && !Truthy(req.senha) && LinkCreate.LifetimeDays(req.expiraEm) > 0
    requires LinkCreate.Storable(req, now)
    requires LinkCreate.FreshKeyIndex(st.links, draws).Some?
    ensures var r := LinkCreate.Shorten(env, st, req, caller, draws, now, base);
            var key := Helpers.GenerateId(draws[LinkCreate.FreshKeyIndex(st.links, draws).value]);
            r.1.Success? && r.0.links[key].senha.None?
  {
    var r := LinkCreate.Shorten(env, st, req, caller, draws, now, base);
    var key := Helpers.GenerateId(draws[LinkCreate.FreshKeyIndex(st.links, draws).value]);
    assert LinkCreate.Created(env, st, req, caller, key, now, false, r.0);
  }

  /**
   * Resolution at instant `t` of a link created at `now` follows it, for a
   * caller the link admits, exactly while `t` has not passed the end of its
   * lifetime, `now + 86400 * days` seconds; after it the key is unknown,
   * whatever the collection holds. That end is also the stored expiry.
   */
  lemma ResolvableExactlyDuringLifetime(env: Env, st: State, req: LinkCreate.ShortenRequest, caller: Option<UserId>,
                                        draws: seq<Hex.Random3>, now: int, base: string,
                                        t: int, senha: Option<string>, viewer: Option<UserId>)
    requires LinkCreate.Shorten(env, st, req, caller, draws, now, base).1.Success?
    ensures var st' := LinkCreate.Shorten(env, st, req, caller, draws, now, base).0;
            var key := Helpers.GenerateId(draws[LinkCreate.FreshKeyIndex(st.links, draws).value]);
            var end := now + LinkCreate.LifetimeDays(req.expiraEm) * LinkCreate.DayMs;
            var r := LinkResolve.RedirectToLinks(env, st'.cache, key, senha, viewer, t, base);
            && st'.links[key].expiraEm == Some(end)
            && (LinkResolve.MayFollow(env, View(st'.links[key]), senha, viewer) ==> (r.Redirect? || r.Success? <==> t <= end))
            && (t > end ==> r == Thrown(NotFoundError(LinkResolve.NotFoundMessage)))
  {
    var st' := LinkCreate.Shorten(env, st, req, caller, draws, now, base).0;
    var key := Helpers.GenerateId(draws[LinkCreate.FreshKeyIndex(st.links, draws).value]);
    CreatedResolvesUntilEnd(env, st, req, caller, key, now, st', t, senha, viewer, base);
  }

  /** The same, for any state a creation under `key` produced. */
  lemma CreatedResolvesUntilEnd(env: Env, st: State, req: LinkCreate.ShortenRequest, caller: Option<UserId>,
                                key: string, now: int, st': State,
                                t: int, senha: Option<string>, viewer: Option<UserId>, base: string)
    requires LinkCreate.Created(env, st, req, caller, key, now, false, st')
    ensures var end := now + LinkCreate.LifetimeDays(req.expiraEm) * LinkCreate.DayMs;
            var r := LinkResolve.RedirectToLinks(env, st'.cache, key, senha, viewer, t, base);
            && st'.links[key].expiraEm == Some(end)
            && (LinkResolve.MayFollow(env, View(st'.links[key]), senha, viewer) ==> (r.Redirect? || r.Success? <==> t <= end))
            && (t > end ==> r == Thrown(NotFoundError(LinkResolve.NotFoundMessage)))
  {
    var days := LinkCreate.LifetimeDays(req.expiraEm);
    var end := now + days * LinkCreate.DayMs;
    var v := View(st'.links[key]);
    assert key in st'.cache && st'.cache[key] == C.Entry(C.LinkJson(v), end);
    ResolveEntry(env, st'.cache, key, v, end, t, senha, viewer, base);
  }

  /** Resolution of a key whose cache entry holds a link until `end`. */
  lemma ResolveEntry(env: Env, cache: C.Cache, key: string, v: LinkView, end: int,
                     t: int, senha: Option<string>, viewer: Option<UserId>, base: string)
    requires key in cache && cache[key] == C.Entry(C.LinkJson(v), end)
    ensures var r := LinkResolve.RedirectToLinks(env, cache, key, senha, viewer, t, base);
            && (LinkResolve.MayFollow(env, v, senha, viewer) ==> (r.Redirect? || r.Success? <==> t <= end))
            && (t > end ==> r == Thrown(NotFoundError(LinkResolve.NotFoundMessage)))
  {
    if t <= end {
      assert C.Get(cache, key, t) == Some(C.LinkJson(v));
      assert LinkResolve.CachedView(cache, key) == v;
    } else {
      assert C.Get(cache, key, t).None?;
    }
  }

  /**
   * The client's choice for a live stored link leads to the route that
   * opens it, and only for those the link admits: an open link goes to the
   * public route, which redirects to its URL; a password link asks for the
   * password, then goes to the protected route, which redirects exactly on
   * the right password when the unencoded query carries it unchanged; a
   * private link is resolved by the private route,
   * and the browser reaches its URL exactly when the access token names the
   * owner.
   */
  lemma RoutingReachesDestination(env: Env, st: State, key: string, now: int, apiBase: string,
                                  senha: Option<string>, accessToken: Option<string>)
    requires Valid(st) && key in st.links && st.links[key].url != ""
    requires C.Get(st.cache, key, now).Some?
    ensures var l := st.links[key];
            var check := LinkResolve.CheckLink(st.cache, key, now);
            var priv := LinkPrivate.RedirectPrivate(env, st, key, accessToken, now).1;
            var route := LinkRouting.RedirectToLink(apiBase, key, check, priv, senha);
            && (!l.privado && !Truthy(l.senha) ==>
                  route == LinkRouting.Navigate(LinkRouting.PublicHref(apiBase, key)) &&
                  LinkPublic.RedirectPublic(st.cache, key, now) == Redirect(l.url, []))
            && (Truthy(l.senha) ==>
                  (route.NeedsPassword? <==> !Truthy(senha)) &&
                  (Truthy(senha) ==>
                     route == LinkRouting.Navigate(LinkRouting.ProtectedHref(apiBase, key, senha.value))) &&
                  (Truthy(senha) && LinkRouting.QuerySafe(senha.value) ==>
                     (LinkProtected.RedirectProtected(env, st, key, senha, now).1.Redirect? <==> env.matches(senha.value, l.senha.value))))
            && (l.privado ==>
                  (route == LinkRouting.Navigate(l.url) <==>
                     Truthy(accessToken) && env.verify(AccessSecret, accessToken.value).Some? &&
                     l.criadoPor == env.verify(AccessSecret, accessToken.value).value.userId))
  {
    var l := st.links[key];
    assert C.Get(st.cache, key, now) == Some(C.LinkJson(View(l)));
    LinkProtected.ProtectedAnswersFromStore(env, st, key, senha, now);
    LinkPrivate.PrivateOnlyForOwner(env, st, key, accessToken, now);
  }

  /**
   * As written, the handshake never opens a link that `shortenLinks`
   * created: from a token-free collection, after any creation request, a
   * handshake request that misses the cache is answered 404 whichever way
   * unknown filter fields are treated.
   */
  lemma HandshakeNeverFindsCreatedLink(env: Env, st: State, req: LinkCreate.ShortenRequest, caller: Option<UserId>,
                                       draws: seq<Hex.Random3>, now: int, base: string,
                                       shortId: string, token: string, visitor: Option<UserId>, later: int,
                                       mode: Handshake.StrictQuery, order: seq<string>)
    requires Tokenless(st.links)
    requires var st' := LinkCreate.Shorten(env, st, req, caller, draws, now, base).0;
             Handshake.NaturalOrder(st'.links, order) && C.Miss(st'.cache, Handshake.CacheKey(shortId, token), later)
    ensures var st' := LinkCreate.Shorten(env, st, req, caller, draws, now, base).0;
            Handshake.VerifyTokenAsWritten(st', shortId, token, visitor, later, mode, order) ==
              (st', Thrown(NotFoundError(Handshake.NotFoundMessage)))
  {
    LinkCreate.ShortenKeepsTokenless(env, st, req, caller, draws, now, base);
    var st' := LinkCreate.Shorten(env, st, req, caller, draws, now, base).0;
    Handshake.AsWrittenNeverExpiresNorOpens(st', shortId, token, visitor, later, mode, order);
  }
}
