/**
 * `shortenLinks`: the ordered validation of a shortening request, the draw of
 * a fresh key, the stored document, the cache entry that lives exactly as
 * long as the link, and the owner's link list.
 */
module LinkCreate {
  import opened Wrappers
  import opened JsString
  import opened Oracles
  import opened Errors
  import opened Http
  import opened LinkModel
  import opened UserModel
  import opened AppState
  import Hex
  import Helpers
  import C = Cache

  /**
   * The request body. `privado` is kept as the JSON value it arrived as: the
   * checks read its truthiness, while `LinkModel.create` casts it.
   */
  datatype ShortenRequest = ShortenRequest(
    url: Option<string>,
    senha: Option<string>,
    nome: Option<string>,
    expiraEm: Option<string>,
    privado: JsonValue)

  const DaySeconds: int := 60 * 60 * 24
  const DayMs: int := DaySeconds * 1000
  const DefaultDays: int := 7
  const MinPasswordLength: int := 6

  const AuthRequiredMessage: string := "Links privados ou nomeados requerem autenticação."
  const PrivateWithPasswordMessage: string := "Links privados não podem ter senha."
  const InvalidUrlMessage: string := "URL inválida ou não fornecida"
  const ShortPasswordMessage: string := "A senha deve ter no mínimo 6 caracteres."
  const CreatedMessage: string := "Link encurtado com sucesso"
  const InvalidExpireMessage: string := "ERR invalid expire time in 'set' command"
  const ValidationMessage: string := "Link validation failed"

  /** `typeof nome === 'string' && nome.trim()` */
  predicate NonBlank(s: Option<string>) {
    s.Some? && |Trim(s.value)| > 0
  }

  /** `parseInt(expira_em) || 7`: NaN and zero both fall back to seven days. */
  function LifetimeDays(expiraEm: Option<string>): (d: int)
    ensures d != 0
  {
    match expiraEm
    case None => DefaultDays
    case Some(s) =>
      match ParseInt(s)
      case None => DefaultDays
      case Some(n) => if n == 0 then DefaultDays else n
  }

  /** A lifetime written as a plain decimal is taken as is, except that zero means the default. */
  lemma LifetimeOfDecimal(n: nat)
    ensures LifetimeDays(Some(ToDecimal(n))) == (if n == 0 then DefaultDays else n)
  {
    ParseIntToDecimal(n);
  }

  /**
   * The do/while key loop over the random draws: the position of the first
   * draw whose key is not stored yet, every earlier draw having collided.
   * `None` means every draw collided and the source would keep drawing.
   */
  function FreshKeyIndex(links: Store, draws: seq<Hex.Random3>): (r: Option<nat>)
    ensures r.Some? ==> r.value < |draws| && Helpers.GenerateId(draws[r.value]) !in links
    ensures r.Some? ==> forall j :: 0 <= j < r.value ==> Helpers.GenerateId(draws[j]) in links
    ensures r.None? ==> forall j :: 0 <= j < |draws| ==> Helpers.GenerateId(draws[j]) in links
  {
    if |draws| == 0 then None
    else if Helpers.GenerateId(draws[0]) !in links then Some(0)
    else
      match FreshKeyIndex(links, draws[1..])
      case None => None
      case Some(i) => Some(i + 1)
  }

  /** The policy checks that run before the key loop. */
  function Precheck(env: Env, req: ShortenRequest, caller: Option<UserId>): Option<AppError> {
    if (JsTruthy(req.privado) || NonBlank(req.nome)) && caller.None? then
      Some(NewUnauthorized(Some(Params(None, Some(AuthRequiredMessage), None,
                                       Some(map["privado" := if JsTruthy(req.privado) then "true" else "false",
                                                "nome" := req.nome.GetOr("")])))))
    else if JsTruthy(req.privado) && Truthy(req.senha) then
      Some(BadRequestError(PrivateWithPasswordMessage, map[]))
    else if !Truthy(req.url) || !Helpers.CheckUrl(env, req.url.value) then
      Some(BadRequestError(InvalidUrlMessage, map[]))
    else None
  }

  /** `senha.length < 6` for a non-empty password; the length counts UTF-16 code units. */
  predicate ShortSenha(req: ShortenRequest) {
    Truthy(req.senha) && Utf16Length(req.senha.value) < MinPasswordLength
  }

  /** The stored password: the hash of a non-empty `senha`, `null` otherwise. */
  function SenhaHash(env: Env, req: ShortenRequest): Option<string> {
    if Truthy(req.senha) then Some(env.hash(req.senha.value)) else None
  }

  /** The fields handed to `LinkModel.create`, with the expiry `dias` days after `now`. */
  function DraftOf(env: Env, req: ShortenRequest, caller: Option<UserId>, key: string, now: int): LinkModel.Draft {
    LinkModel.Draft(Some(key), req.url, caller, SenhaHash(env, req), req.privado,
                    Some(now + LifetimeDays(req.expiraEm) * DayMs))
  }

  /**
   * The request survives the casts `LinkModel.create` applies: `privado` is
   * one of the values Mongoose reads as a boolean, and the expiry is a date
   * JavaScript can represent. A huge `expira_em` (beyond about 10^8 days
   * either way, or one `parseInt` reads as infinite) makes the `Date` invalid.
   */
  predicate Storable(req: ShortenRequest, now: int) {
    CastBoolean(req.privado).Some? && ValidTime(now + LifetimeDays(req.expiraEm) * DayMs)
  }

  /**
   * The link as its cache entry describes it: the stored fields, except that
   * the code as written puts `!!privado` in the JSON rather than the stored,
   * cast value.
   */
  function EntryView(l: Link, req: ShortenRequest, asWritten: bool): LinkView {
    if asWritten then View(l).(privado := JsTruthy(req.privado)) else View(l)
  }

  /**
   * What a successful creation leaves behind under the fresh `key`: the
   * stored link carries the request's URL, hashed password, cast privacy,
   * owner and expiry instant, and the cache holds its JSON until that same
   * instant.
   */
  predicate Created(env: Env, st: State, req: ShortenRequest, caller: Option<UserId>, key: string, now: int,
                    asWritten: bool, st': State) {
    && key !in st.links
    && key in st'.links
    && st'.links == st.links[key := st'.links[key]]
    && st'.links[key].key == key
    && Some(st'.links[key].url) == req.url
    && st'.links[key].senha == SenhaHash(env, req)
    && Some(st'.links[key].privado) == CastBoolean(req.privado)
    && st'.links[key].criadoPor == caller
    && st'.links[key].expiraEm == Some(now + LifetimeDays(req.expiraEm) * DayMs)
    && key in st'.cache
    && st'.cache == st.cache[key := st'.cache[key]]
    && st'.cache[key] == C.Entry(C.LinkJson(EntryView(st'.links[key], req, asWritten)),
                                 now + LifetimeDays(req.expiraEm) * DayMs)
  }

  /** The document `LinkModel.create` stores for a validated request under a fresh key. */
  function NewLink(env: Env, links: Store, req: ShortenRequest, caller: Option<UserId>, key: string, now: int): (l: Link)
    requires key !in links && Truthy(req.url) && |key| > 0 && Storable(req, now)
    ensures l.key == key && Some(l.url) == req.url && l.senha == SenhaHash(env, req)
    ensures Some(l.privado) == CastBoolean(req.privado) && l.criadoPor == caller
    ensures l.expiraEm == Some(now + LifetimeDays(req.expiraEm) * DayMs)
    ensures l.token.None?
  {
    var d := DraftOf(env, req, caller, key, now);
    assert Castable(d) && Truthy(d.key) && Truthy(d.url) && d.key.value !in links;
    Create(links, d, now).value
  }

  /**
   * The writes after validation: create the document, cache its JSON for
   * `86400 * dias` seconds, append it to the owner's list, answer 201. A
   * failed cast stores nothing; a negative lifetime is refused by Redis after
   * the document was stored.
   */
  function Persist(env: Env, st: State, req: ShortenRequest, caller: Option<UserId>, key: string, now: int, base: string,
                   asWritten: bool): (r: (State, Response))
    requires key !in st.links && Truthy(req.url) && |key| > 0
    ensures r.1.Success? <==> Storable(req, now) && LifetimeDays(req.expiraEm) > 0
    ensures !Storable(req, now) ==> r == (st, Thrown(Uncaught(ValidationMessage)))
    ensures r.1.Success? ==>
              && Created(env, st, req, caller, key, now, asWritten, r.0)
              && r.1 == Success(201, CreatedMessage, UrlBody(base + "/" + key), [])
    ensures r.1.Success? ==> r.0.users == (if caller.Some? then PushLink(st.users, caller.value, key) else st.users)
    ensures Storable(req, now) && !r.1.Success? ==>
              r.1 == Thrown(Uncaught(InvalidExpireMessage)) && LifetimeDays(req.expiraEm) < 0
    ensures Storable(req, now) ==> r.0.links == st.links[key := NewLink(env, st.links, req, caller, key, now)]
    ensures Storable(req, now) && !r.1.Success? ==> r.0.cache == st.cache && r.0.users == st.users
    ensures r.0.handshakes == st.handshakes
  {
    if !Storable(req, now) then (st, Thrown(Uncaught(ValidationMessage)))
    else
      var dias := LifetimeDays(req.expiraEm);
      var link := NewLink(env, st.links, req, caller, key, now);
      var entry := C.LinkJson(EntryView(link, req, asWritten));
      TtlSign(dias);
      match C.SetEx(st.cache, key, entry, DaySeconds * dias, now)
      case None =>
        (st.(links := st.links[key := link]), Thrown(Uncaught(InvalidExpireMessage)))
      case Some(cache') =>
        C.SetExWrites(st.cache, key, entry, DaySeconds * dias, now);
        TtlInMs(dias);
        Stored(env, st, req, caller, key, now, base, asWritten, link, cache')
  }

  /** The lifetime in seconds handed to Redis is positive exactly when the number of days is. */
  lemma TtlSign(dias: int)
    ensures DaySeconds * dias > 0 <==> dias > 0
  {
  }

  /** The TTL handed to Redis, counted in seconds, ends where the stored expiry does. */
  lemma TtlInMs(dias: int)
    ensures DaySeconds * dias * C.SecondMs == dias * DayMs
  {
  }

  /** Once Redis has accepted the entry: the owner's list gains the link and the answer is 201. */
  function Stored(env: Env, st: State, req: ShortenRequest, caller: Option<UserId>, key: string, now: int, base: string,
                  asWritten: bool, link: Link, cache': C.Cache): (r: (State, Response))
    requires key !in st.links && Truthy(req.url) && |key| > 0 && Storable(req, now)
    requires link == NewLink(env, st.links, req, caller, key, now)
    requires cache' == st.cache[key := C.Entry(C.LinkJson(EntryView(link, req, asWritten)),
                                               now + LifetimeDays(req.expiraEm) * DayMs)]
    ensures Created(env, st, req, caller, key, now, asWritten, r.0)
    ensures r.1 == Success(201, CreatedMessage, UrlBody(base + "/" + key), [])
    ensures r.0.users == (if caller.Some? then PushLink(st.users, caller.value, key) else st.users)
    ensures r.0.handshakes == st.handshakes
  {
    var users' := if caller.Some? then PushLink(st.users, caller.value, key) else st.users;
    WritesCreate(env, st, req, caller, key, now, asWritten, link, cache', users');
    (State(st.links[key := link], cache', users', st.handshakes), Success(201, CreatedMessage, UrlBody(base + "/" + key), []))
  }

  /** The document and the cache entry `Persist` writes are the ones `Created` describes. */
  lemma WritesCreate(env: Env, st: State, req: ShortenRequest, caller: Option<UserId>, key: string, now: int,
                     asWritten: bool, link: Link, cache': C.Cache, users': seq<User>)
    requires key !in st.links && Truthy(req.url) && |key| > 0 && Storable(req, now)
    requires link == NewLink(env, st.links, req, caller, key, now)
    requires cache' == st.cache[key := C.Entry(C.LinkJson(EntryView(link, req, asWritten)),
                                               now + LifetimeDays(req.expiraEm) * DayMs)]
    ensures Created(env, st, req, caller, key, now, asWritten, State(st.links[key := link], cache', users', st.handshakes))
  {
  }

  /**
   * `shortenLinks` at instant `now`, with the random draws the key loop
   * consumes and the frontend base URL, its cache entry mirroring the stored
   * document. The answer is 201 with the short URL; each refusal is decided
   * before anything is written.
   */
  function Shorten(env: Env, st: State, req: ShortenRequest, caller: Option<UserId>,
                   draws: seq<Hex.Random3>, now: int, base: string): (r: (State, Response))
    ensures (JsTruthy(req.privado) || NonBlank(req.nome)) && caller.None? ==>
              r.0 == st && ThrownKind(r.1, Unauthorized) && r.1.error.message == AuthRequiredMessage
    ensures caller.Some? && JsTruthy(req.privado) && Truthy(req.senha) ==>
              r == (st, Thrown(BadRequestError(PrivateWithPasswordMessage, map[])))
    ensures !((JsTruthy(req.privado) || NonBlank(req.nome)) && caller.None?) && !(JsTruthy(req.privado) && Truthy(req.senha)) &&
            (!Truthy(req.url) || !env.validUrl(req.url.value)) ==>
              r == (st, Thrown(BadRequestError(InvalidUrlMessage, map[])))
    ensures Precheck(env, req, caller).None? && ShortSenha(req) && FreshKeyIndex(st.links, draws).Some? ==>
              r == (st, Thrown(BadRequestError(ShortPasswordMessage, map[])))
    ensures Precheck(env, req, caller).None? && !ShortSenha(req) && FreshKeyIndex(st.links, draws).Some? &&
            !Storable(req, now) ==>
              r == (st, Thrown(Uncaught(ValidationMessage)))
    ensures r.1.Thrown? && r.1.error.Custom? ==> r.0 == st
    ensures Precheck(env, req, caller).None? && FreshKeyIndex(st.links, draws).Some? && !ShortSenha(req) &&
            Storable(req, now) && LifetimeDays(req.expiraEm) > 0 ==>
              r.1.Success?
    ensures r.1.Success? ==>
              && Precheck(env, req, caller).None?
              && FreshKeyIndex(st.links, draws).Some?
              && var key := Helpers.GenerateId(draws[FreshKeyIndex(st.links, draws).value]);
              && Created(env, st, req, caller, key, now, false, r.0)
              && r.1 == Success(201, CreatedMessage, UrlBody(base + "/" + key), [])
  {
    match Precheck(env, req, caller)
    case Some(e) => (st, Thrown(e))
    case None =>
      match FreshKeyIndex(st.links, draws)
      case None => (st, Unanswered)
      case Some(i) =>
        var key := Helpers.GenerateId(draws[i]);
        if ShortSenha(req) then (st, Thrown(BadRequestError(ShortPasswordMessage, map[])))
        else Persist(env, st, req, caller, key, now, base, false)
  }

  /** No request gives a link a `token`: creation keeps a token-free collection token-free. */
  lemma ShortenKeepsTokenless(env: Env, st: State, req: ShortenRequest, caller: Option<UserId>,
                              draws: seq<Hex.Random3>, now: int, base: string)
    requires Tokenless(st.links)
    ensures Tokenless(Shorten(env, st, req, caller, draws, now, base).0.links)
    ensures Tokenless(ShortenAsWritten(env, st, req, caller, draws, now, base).0.links)
  {
    var r := Shorten(env, st, req, caller, draws, now, base);
    if Precheck(env, req, caller).None? && FreshKeyIndex(st.links, draws).Some? {
      var key := Helpers.GenerateId(draws[FreshKeyIndex(st.links, draws).value]);
      if !ShortSenha(req) && Storable(req, now) {
        assert r.0.links == st.links[key := NewLink(env, st.links, req, caller, key, now)];
      }
    }
  }

  /**
   * `shortenLinks` as written: the cache entry's JSON says `!!privado` while
   * the document stores the cast of `privado`. The answer, the collection
   * and the users are those of `Shorten`; on success the cache entry differs
   * at most in that flag.
   */
  function ShortenAsWritten(env: Env, st: State, req: ShortenRequest, caller: Option<UserId>,
                            draws: seq<Hex.Random3>, now: int, base: string): (r: (State, Response))
    ensures var s := Shorten(env, st, req, caller, draws, now, base);
            r.1 == s.1 && r.0.links == s.0.links && r.0.users == s.0.users && r.0.handshakes == s.0.handshakes
    ensures !r.1.Success? ==> r.0.cache == Shorten(env, st, req, caller, draws, now, base).0.cache
    ensures r.1.Success? ==>
              && FreshKeyIndex(st.links, draws).Some?
              && Created(env, st, req, caller, Helpers.GenerateId(draws[FreshKeyIndex(st.links, draws).value]), now, true, r.0)
  {
    match Precheck(env, req, caller)
    case Some(e) => (st, Thrown(e))
    case None =>
      match FreshKeyIndex(st.links, draws)
      case None => (st, Unanswered)
      case Some(i) =>
        var key := Helpers.GenerateId(draws[i]);
        if ShortSenha(req) then (st, Thrown(BadRequestError(ShortPasswordMessage, map[])))
        else Persist(env, st, req, caller, key, now, base, true)
  }

  /**
   * The two agree whenever the cast keeps the value's truthiness, in
   * particular for the JSON booleans the frontend sends.
   */
  lemma AsWrittenAgreesUnlessFalseWord(env: Env, st: State, req: ShortenRequest, caller: Option<UserId>,
                                       draws: seq<Hex.Random3>, now: int, base: string)
    requires req.privado != JText("false") && req.privado != JText("0") && req.privado != JText("no")
    ensures ShortenAsWritten(env, st, req, caller, draws, now, base) == Shorten(env, st, req, caller, draws, now, base)
  {
    CastDisagreesOnlyOnFalseWords(req.privado);
    if Precheck(env, req, caller).None? && FreshKeyIndex(st.links, draws).Some? && !ShortSenha(req) && Storable(req, now) {
      var key := Helpers.GenerateId(draws[FreshKeyIndex(st.links, draws).value]);
      var link := NewLink(env, st.links, req, caller, key, now);
      assert EntryView(link, req, true) == EntryView(link, req, false);
    }
  }

  /**
   * The string "false" passes every check as truthy, so a signed-in caller
   * may send it; the document stores `privado: false`, while the cache entry
   * every resolver reads says `privado: true`: the cached copy no longer
   * mirrors the stored link.
   */
  lemma FalseWordCachedAsPrivate(env: Env, st: State, req: ShortenRequest, caller: Option<UserId>,
                                 draws: seq<Hex.Random3>, now: int, base: string)
    requires req.privado == JText("false")
    requires Precheck(env, req, caller).None?
    requires FreshKeyIndex(st.links, draws).Some?
    requires ValidTime(now + LifetimeDays(req.expiraEm) * DayMs) && LifetimeDays(req.expiraEm) > 0
    ensures var r := ShortenAsWritten(env, st, req, caller, draws, now, base);
            var key := Helpers.GenerateId(draws[FreshKeyIndex(st.links, draws).value]);
            && r.1.Success?
            && !r.0.links[key].privado
            && r.0.cache[key].value == C.LinkJson(View(r.0.links[key]).(privado := true))
            && !Valid(r.0)
  {
    var r := ShortenAsWritten(env, st, req, caller, draws, now, base);
    var key := Helpers.GenerateId(draws[FreshKeyIndex(st.links, draws).value]);
    assert Created(env, st, req, caller, key, now, true, r.0);
    assert r.0.cache[key].value.view != View(r.0.links[key]);
  }

  /** The writes keep the state invariant: the new link's policy is sound and its cache entry mirrors it. */
  lemma PersistPreservesValid(env: Env, st: State, req: ShortenRequest, caller: Option<UserId>, key: string, now: int, base: string)
    requires key !in st.links && Truthy(req.url) && |key| > 0
    requires Valid(st) && LinkKeyShape(key)
    requires JsTruthy(req.privado) ==> caller.Some? && !Truthy(req.senha)
    ensures Valid(Persist(env, st, req, caller, key, now, base, false).0)
  {
    var r := Persist(env, st, req, caller, key, now, base, false);
    if Storable(req, now) {
      var l := NewLink(env, st.links, req, caller, key, now);
      if r.1.Success? {
        assert Created(env, st, req, caller, key, now, false, r.0);
        assert r.0.links[key] == l;
      }
      InsertPreservesValid(st, key, l, r.0.cache, r.0.users, r.0.handshakes);
      assert r.0 == State(st.links[key := l], r.0.cache, r.0.users, r.0.handshakes);
    }
  }

  /**
   * Storing a link with a sound policy under a fresh generated key keeps the
   * invariant, whether the cache is left alone or gains that link's JSON
   * under the key.
   */
  lemma InsertPreservesValid(st: State, key: string, l: Link, cache': C.Cache, users': seq<User>, hs': seq<HandshakeRecord>)
    requires Valid(st) && key !in st.links && LinkKeyShape(key) && l.key == key && PolicyOk(l)
    requires cache' == st.cache ||
             (key in cache' && cache' == st.cache[key := cache'[key]] && cache'[key].value == C.LinkJson(View(l)))
    ensures Valid(State(st.links[key := l], cache', users', hs'))
  {
    var links' := st.links[key := l];
    forall k | k in cache' && cache'[k].value.LinkJson?
      ensures k in links' && cache'[k].value.view == View(links'[k])
    {
      if k != key {
        assert cache'[k] == st.cache[k];
      }
    }
  }

  /** Creation keeps the state invariant, whatever the request. */
  lemma ShortenPreservesValid(env: Env, st: State, req: ShortenRequest, caller: Option<UserId>,
                              draws: seq<Hex.Random3>, now: int, base: string)
    requires Valid(st)
    ensures Valid(Shorten(env, st, req, caller, draws, now, base).0)
  {
    if Precheck(env, req, caller).None? && FreshKeyIndex(st.links, draws).Some? {
      var key := Helpers.GenerateId(draws[FreshKeyIndex(st.links, draws).value]);
      if !ShortSenha(req) {
        PersistPreservesValid(env, st, req, caller, key, now, base);
      }
    }
  }

  /**
   * A lifetime that parses as a negative number, yet leaves the expiry a
   * valid date, is accepted by validation, but Redis refuses the negative
   * expiry after the document was stored: the caller gets a 500 while the
   * link stays in the collection, uncached and missing from its owner's list.
   */
  lemma NegativeLifetimeLeavesOrphan(env: Env, st: State, req: ShortenRequest, caller: Option<UserId>,
                                     draws: seq<Hex.Random3>, now: int, base: string)
    requires Precheck(env, req, caller).None?
    requires !Truthy(req.senha)
    requires FreshKeyIndex(st.links, draws).Some?
    requires LifetimeDays(req.expiraEm) < 0 && Storable(req, now)
    ensures var r := Shorten(env, st, req, caller, draws, now, base);
            && StatusOf(r.1) == 500
            && Helpers.GenerateId(draws[FreshKeyIndex(st.links, draws).value]) in r.0.links
            && r.0.cache == st.cache && r.0.users == st.users
  {
    var key := Helpers.GenerateId(draws[FreshKeyIndex(st.links, draws).value]);
    var r := Persist(env, st, req, caller, key, now, base, false);
    assert Shorten(env, st, req, caller, draws, now, base) == r;
    assert key in r.0.links.Keys;
  }

  /**
   * A lifetime so long (or so negative) that the expiry leaves the range a
   * `Date` holds fails the cast in `LinkModel.create`: the caller gets a 500
   * and nothing at all is written.
   */
  lemma OutOfRangeLifetimeStoresNothing(env: Env, st: State, req: ShortenRequest, caller: Option<UserId>,
                                        draws: seq<Hex.Random3>, now: int, base: string)
    requires Precheck(env, req, caller).None? && !ShortSenha(req)
    requires FreshKeyIndex(st.links, draws).Some?
    requires !ValidTime(now + LifetimeDays(req.expiraEm) * DayMs)
    ensures var r := Shorten(env, st, req, caller, draws, now, base);
            StatusOf(r.1) == 500 && r.0 == st
  {
  }
}
