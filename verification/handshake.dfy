/**
 * `verifyToken`: opening a link by its handshake token. A cached URL under
 * `handshake:{short_id}:{token}` is used as is; otherwise the matching
 * record is checked for expiry and owner, and its URL cached for a minute.
 * Every success sets the `auth_{short_id}` cookie and redirects.
 *
 * As written, the lookup runs on the link collection by `shortUrl` and
 * `token`, then reads `expiresAt` and `originalUrl`. The link schema
 * declares only `token` of these, and no creation sets it.
 * `VerifyTokenAsWritten` is that code; `VerifyToken` is the lookup over
 * handshake records that its checks evidently mean.
 */
module Handshake {
  import opened Wrappers
  import opened JsString
  import opened Errors
  import opened Http
  import opened LinkModel
  import opened AppState
  import C = Cache

  const NotFoundMessage: string := "Link não encontrado"
  const ExpiredMessage: string := "Link expirado"
  const NotAuthorisedMessage: string := "Não autorizado"
  const UrlCacheSeconds: int := 60
  const CookieMaxAgeMs: int := 60000

  function CacheKey(shortId: string, token: string): string {
    "handshake:" + shortId + ":" + token
  }

  function CookieName(shortId: string): string {
    "auth_" + shortId
  }

  /** `findOne({ shortUrl: short_id, token })`: the first matching record. */
  function FindRecord(records: seq<HandshakeRecord>, shortId: string, token: string): (r: Option<nat>)
    ensures r.Some? ==> r.value < |records| && records[r.value].shortUrl == shortId && records[r.value].token == token
    ensures r.Some? ==> forall j :: 0 <= j < r.value ==> !(records[j].shortUrl == shortId && records[j].token == token)
    ensures r.None? ==> forall j :: 0 <= j < |records| ==> !(records[j].shortUrl == shortId && records[j].token == token)
  {
    if |records| == 0 then None
    else if records[0].shortUrl == shortId && records[0].token == token then Some(0)
    else
      match FindRecord(records[1..], shortId, token)
      case None => None
      case Some(i) => Some(i + 1)
  }

  /** The record is past its expiry instant. */
  predicate Expired(rec: HandshakeRecord, now: int) {
    rec.expiresAt.Some? && rec.expiresAt.value < now
  }

  /** An owner and a caller are both known and differ; an anonymous caller never does. */
  predicate OwnerClash(rec: HandshakeRecord, caller: Option<UserId>) {
    Truthy(rec.criadoPor) && Truthy(caller) && rec.criadoPor != caller
  }

  function Opened(url: string, shortId: string, token: string): Response {
    Redirect(url, [SetCookie(CookieName(shortId), token, CookieMaxAgeMs)])
  }

  /** `verifyToken` at instant `now` for the request's `short_id`, `token` and optional caller. */
  function VerifyToken(st: State, shortId: string, token: string, caller: Option<UserId>, now: int): (r: (State, Response))
    ensures var k := CacheKey(shortId, token);
            !C.Miss(st.cache, k, now) ==>
              r == (st, Opened(C.Serialised(C.Get(st.cache, k, now).value), shortId, token))
    ensures var k := CacheKey(shortId, token);
            C.Miss(st.cache, k, now) && FindRecord(st.handshakes, shortId, token).None? ==>
              r == (st, Thrown(NotFoundError(NotFoundMessage)))
    ensures var k := CacheKey(shortId, token);
            var i := FindRecord(st.handshakes, shortId, token);
            C.Miss(st.cache, k, now) && i.Some? ==>
              && (Expired(st.handshakes[i.value], now) ==> r == (st, Thrown(UnauthorizedError(ExpiredMessage))))
              && (!Expired(st.handshakes[i.value], now) && OwnerClash(st.handshakes[i.value], caller) ==>
                    r == (st, Thrown(UnauthorizedError(NotAuthorisedMessage))))
              && (!Expired(st.handshakes[i.value], now) && !OwnerClash(st.handshakes[i.value], caller) ==>
                    var url := st.handshakes[i.value].originalUrl;
                    r == (st.(cache := st.cache[k := C.Entry(C.Text(url), now + UrlCacheSeconds * C.SecondMs)]),
                          Opened(url, shortId, token)))
  {
    var k := CacheKey(shortId, token);
    if !C.Miss(st.cache, k, now) then
      (st, Opened(C.Serialised(C.Get(st.cache, k, now).value), shortId, token))
    else
      match FindRecord(st.handshakes, shortId, token)
      case None => (st, Thrown(NotFoundError(NotFoundMessage)))
      case Some(i) =>
        var rec := st.handshakes[i];
        if Expired(rec, now) then (st, Thrown(UnauthorizedError(ExpiredMessage)))
        else if OwnerClash(rec, caller) then (st, Thrown(UnauthorizedError(NotAuthorisedMessage)))
        else
          var cache' := C.SetEx(st.cache, k, C.Text(rec.originalUrl), UrlCacheSeconds, now).value;
          (st.(cache := cache'), Opened(rec.originalUrl, shortId, token))
  }

  /**
   * How Mongoose treats filter fields the schema does not declare
   * (`strictQuery`): it either drops them or passes them to MongoDB. The
   * Mongoose version, and so which one is the default, is not part of this
   * model.
   */
  datatype StrictQuery = DropUnknown | KeepUnknown

  /** `order` lists exactly the keys of `links`: the collection's natural order. */
  predicate NaturalOrder(links: Store, order: seq<string>) {
    (forall k :: k in links ==> k in order) && (forall i :: 0 <= i < |order| ==> order[i] in links)
  }

  /** The position in `order` of the first link whose `token` is the given one. */
  function FirstWithToken(links: Store, order: seq<string>, token: string): (r: Option<nat>)
    ensures r.Some? ==> r.value < |order| && order[r.value] in links && links[order[r.value]].token == Some(token)
    ensures r.Some? ==> forall j :: 0 <= j < r.value && order[j] in links ==> links[order[j]].token != Some(token)
    ensures r.None? ==> forall j :: 0 <= j < |order| && order[j] in links ==> links[order[j]].token != Some(token)
  {
    if |order| == 0 then None
    else if order[0] in links && links[order[0]].token == Some(token) then Some(0)
    else
      match FirstWithToken(links, order[1..], token)
      case None => None
      case Some(i) => Some(i + 1)
  }

  /**
   * `Link.findOne({ shortUrl: short_id, token })` on link documents. The
   * schema declares `token` but not `shortUrl`. Dropping the unknown field
   * leaves the filter `{ token }`, which meets the first link in natural
   * order carrying that token. Keeping it meets no document, since no link
   * has a `shortUrl`.
   */
  function FindLinkAsWritten(links: Store, mode: StrictQuery, order: seq<string>, token: string): (r: Option<Link>)
    requires NaturalOrder(links, order)
    ensures mode == KeepUnknown ==> r.None?
    ensures mode == DropUnknown ==> (r.Some? <==> exists k :: k in links && links[k].token == Some(token))
    ensures r.Some? ==> r.value in links.Values && r.value.token == Some(token)
  {
    match mode
    case KeepUnknown => None
    case DropUnknown =>
      match FirstWithToken(links, order, token)
      case None =>
        assert forall k :: k in links ==> links[k].token != Some(token) by {
          forall k | k in links
            ensures links[k].token != Some(token)
          {
            assert k in order;
            var j :| 0 <= j < |order| && order[j] == k;
          }
        }
        None
      case Some(i) => Some(links[order[i]])
  }

  /**
   * What the browser is sent to by `res.redirect(undefined)`: Express writes
   * the `Location` header as `String(undefined)`.
   */
  const UndefinedLocation: string := "undefined"

  /**
   * `verifyToken` as written, over the link collection. A link document has
   * no `expiresAt`, so the expiry check never fires, and no `originalUrl`,
   * so ioredis stores the undefined URL as "" and the browser is sent to
   * "undefined". Only the owner check, on `criado_por`, is real.
   */
  function VerifyTokenAsWritten(st: State, shortId: string, token: string, caller: Option<UserId>, now: int,
                                mode: StrictQuery, order: seq<string>): (r: (State, Response))
    requires NaturalOrder(st.links, order)
    ensures var k := CacheKey(shortId, token);
            !C.Miss(st.cache, k, now) ==>
              r == (st, Opened(C.Serialised(C.Get(st.cache, k, now).value), shortId, token))
    ensures var k := CacheKey(shortId, token);
            C.Miss(st.cache, k, now) && FindLinkAsWritten(st.links, mode, order, token).None? ==>
              r == (st, Thrown(NotFoundError(NotFoundMessage)))
    ensures var k := CacheKey(shortId, token);
            var l := FindLinkAsWritten(st.links, mode, order, token);
            C.Miss(st.cache, k, now) && l.Some? ==>
              && (LinkOwnerClash(l.value, caller) ==> r == (st, Thrown(UnauthorizedError(NotAuthorisedMessage))))
              && (!LinkOwnerClash(l.value, caller) ==>
                    r == (st.(cache := st.cache[k := C.Entry(C.Text(""), now + UrlCacheSeconds * C.SecondMs)]),
                          Opened(UndefinedLocation, shortId, token)))
  {
    var k := CacheKey(shortId, token);
    if !C.Miss(st.cache, k, now) then
      (st, Opened(C.Serialised(C.Get(st.cache, k, now).value), shortId, token))
    else
      match FindLinkAsWritten(st.links, mode, order, token)
      case None => (st, Thrown(NotFoundError(NotFoundMessage)))
      case Some(l) =>
        if LinkOwnerClash(l, caller) then (st, Thrown(UnauthorizedError(NotAuthorisedMessage)))
        else
          var cache' := C.SetEx(st.cache, k, C.Text(""), UrlCacheSeconds, now).value;
          (st.(cache := cache'), Opened(UndefinedLocation, shortId, token))
  }

  /** The owner check of the written code, on the link's `criado_por`. */
  predicate LinkOwnerClash(l: Link, caller: Option<UserId>) {
    Truthy(l.criadoPor) && Truthy(caller) && l.criadoPor != caller
  }

  /**
   * As written, a lookup in the store never answers "Link expirado" and
   * never sends the browser to a stored URL: every redirect it gives goes to
   * "undefined". On a collection where no link carries a token, which is
   * every collection link creation builds, a cache miss is answered 404
   * whichever way unknown filter fields are treated.
   */
  lemma AsWrittenNeverExpiresNorOpens(st: State, shortId: string, token: string, caller: Option<UserId>, now: int,
                                      mode: StrictQuery, order: seq<string>)
    requires NaturalOrder(st.links, order)
    requires C.Miss(st.cache, CacheKey(shortId, token), now)
    ensures var r := VerifyTokenAsWritten(st, shortId, token, caller, now, mode, order);
            && r.1 != Thrown(UnauthorizedError(ExpiredMessage))
            && (r.1.Redirect? ==> r.1.location == UndefinedLocation)
    ensures mode == KeepUnknown || Tokenless(st.links) ==>
              VerifyTokenAsWritten(st, shortId, token, caller, now, mode, order) == (st, Thrown(NotFoundError(NotFoundMessage)))
  {
    if Tokenless(st.links) {
      assert forall k :: k in st.links ==> st.links[k].token != Some(token);
    }
  }

  /**
   * As written, the URL a store lookup caches is "", which reads back as a
   * miss: the next request with the same short id and token runs the lookup
   * again instead of using the cache.
   */
  lemma AsWrittenCacheNeverHits(st: State, shortId: string, token: string, caller: Option<UserId>, now: int,
                                mode: StrictQuery, order: seq<string>, later: int)
    requires NaturalOrder(st.links, order)
    requires C.Miss(st.cache, CacheKey(shortId, token), now) && now <= later
    ensures C.Miss(VerifyTokenAsWritten(st, shortId, token, caller, now, mode, order).0.cache, CacheKey(shortId, token), later)
  {
  }

  /**
   * The record-based lookup is what the written checks mean: given a live
   * record for the pair whose owner the caller does not clash with, it opens
   * the record's URL, where the written code opens "undefined" or nothing.
   */
  lemma RecordLookupOpensStoredUrl(st: State, shortId: string, token: string, caller: Option<UserId>, now: int, i: nat)
    requires i < |st.handshakes| && st.handshakes[i].shortUrl == shortId && st.handshakes[i].token == token
    requires forall j :: 0 <= j < i ==> !(st.handshakes[j].shortUrl == shortId && st.handshakes[j].token == token)
    requires C.Miss(st.cache, CacheKey(shortId, token), now)
    requires !Expired(st.handshakes[i], now) && !OwnerClash(st.handshakes[i], caller)
    ensures VerifyToken(st, shortId, token, caller, now).1 == Opened(st.handshakes[i].originalUrl, shortId, token)
  {
  }

  /** A handshake cache key is never shaped like a link key, so the two never collide. */
  lemma CacheKeyIsNotLinkKey(shortId: string, token: string)
    ensures !LinkKeyShape(CacheKey(shortId, token))
  {
    assert |CacheKey(shortId, token)| >= 11;
  }

  /** The written code keeps the state invariant too: it writes only a string under a handshake key. */
  lemma VerifyTokenAsWrittenPreservesValid(st: State, shortId: string, token: string, caller: Option<UserId>, now: int,
                                           mode: StrictQuery, order: seq<string>)
    requires Valid(st)
    requires NaturalOrder(st.links, order)
    ensures Valid(VerifyTokenAsWritten(st, shortId, token, caller, now, mode, order).0)
  {
    CacheKeyIsNotLinkKey(shortId, token);
  }

  /** Opening by handshake keeps the state invariant. */
  lemma VerifyTokenPreservesValid(st: State, shortId: string, token: string, caller: Option<UserId>, now: int)
    requires Valid(st)
    ensures Valid(VerifyToken(st, shortId, token, caller, now).0)
  {
    CacheKeyIsNotLinkKey(shortId, token);
  }

  /**
   * For a minute after one caller opens a link through the store, the cached
   * URL is handed to anyone presenting the same short id and token: the
   * expiry and owner checks are skipped, so a caller the owner check refuses
   * gets the link all the same.
   */
  lemma CachedUrlSkipsChecks(st: State, shortId: string, token: string, caller: Option<UserId>, now: int,
                             other: Option<UserId>, later: int)
    requires C.Miss(st.cache, CacheKey(shortId, token), now)
    requires VerifyToken(st, shortId, token, caller, now).1.Redirect?
    requires now <= later <= now + UrlCacheSeconds * C.SecondMs
    requires |VerifyToken(st, shortId, token, caller, now).1.location| > 0
    ensures var first := VerifyToken(st, shortId, token, caller, now);
            VerifyToken(first.0, shortId, token, other, later) == (first.0, first.1)
  {
  }
}
