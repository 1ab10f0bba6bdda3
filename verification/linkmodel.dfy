/**
 * The Link document: its fields, the defaults the schema fills in, the
 * required and unique constraints checked when a document is created, and
 * the subset of fields the resolvers read back from a cached or stored copy.
 */
module LinkModel {
  import opened Wrappers
  import opened JsString

  /** A user's `_id`, compared as its string form. */
  type UserId = string

  datatype DayCount = DayCount(data: string, quantidade: int)

  datatype Analytics = Analytics(totalClicks: int, clicksPorDia: seq<DayCount>, ultimosIps: seq<string>)

  /** Instants are milliseconds since the epoch, as JavaScript's `Date` counts them. */
  datatype Link = Link(
    key: string,
    token: Option<string>,
    url: string,
    criadoPor: Option<UserId>,
    senha: Option<string>,
    privado: bool,
    expiraEm: Option<int>,
    handshakeUsado: bool,
    analytics: Analytics,
    criadoEm: int)

  /**
   * A field of a JSON request body as the controller receives it, before any
   * cast: absent, `null`, a boolean, a number (taken to be an integer), a
   * string, or an array or object.
   */
  datatype JsonValue = Undefined | Null | JBool(b: bool) | JNumber(n: int) | JText(s: string) | JComposite

  /** `!!v`. */
  predicate JsTruthy(v: JsonValue) {
    match v
    case Undefined => false
    case Null => false
    case JBool(b) => b
    case JNumber(n) => n != 0
    case JText(s) => |s| > 0
    case JComposite => true
  }

  /**
   * Mongoose's cast of a value to a `Boolean` path. `true`, "true", 1, "1"
   * and "yes" become true; `false`, "false", 0, "0" and "no" become false;
   * an absent value takes the schema default `false`, and `null` is stored as
   * `null`, which every reader takes as false. Anything else fails the cast
   * (`None`).
   */
  function CastBoolean(v: JsonValue): (r: Option<bool>)
    ensures r == Some(true) ==> JsTruthy(v)
    ensures v.JBool? ==> r == Some(v.b)
    ensures v.JComposite? ==> r.None?
  {
    match v
    case Undefined => Some(false)
    case Null => Some(false)
    case JBool(b) => Some(b)
    case JNumber(n) => if n == 1 then Some(true) else if n == 0 then Some(false) else None
    case JText(s) =>
      if s == "true" || s == "1" || s == "yes" then Some(true)
      else if s == "false" || s == "0" || s == "no" then Some(false)
      else None
    case JComposite => None
  }

  /**
   * The cast keeps a value's truthiness except for the three strings that
   * spell false: they are truthy, yet stored as false.
   */
  lemma CastDisagreesOnlyOnFalseWords(v: JsonValue)
    ensures CastBoolean(v).Some? && CastBoolean(v).value != JsTruthy(v) <==>
            v == JText("false") || v == JText("0") || v == JText("no")
  {
  }

  /**
   * Milliseconds either side of the epoch that a `Date` can hold (the time
   * range of section 21.4.1.1 of ECMA-262); past it a date is invalid.
   */
  const MaxTimeMs: int := 8_640_000_000_000_000

  predicate ValidTime(t: int) {
    -MaxTimeMs <= t <= MaxTimeMs
  }

  /**
   * The fields handed to `LinkModel.create`; `None` is a field left
   * undefined. `privado` is passed on uncast; `expiraEm` is the instant the
   * `Date` was set to, which may lie outside the range a `Date` holds.
   */
  datatype Draft = Draft(
    key: Option<string>,
    url: Option<string>,
    criadoPor: Option<UserId>,
    senha: Option<string>,
    privado: JsonValue,
    expiraEm: Option<int>)

  datatype CreateError = KeyRequired | UrlRequired | CastFailed | DuplicateKey

  /** The stored links, indexed by their unique `key`. */
  type Store = map<string, Link>

  /** No stored link carries a `token`: `create` never sets one. */
  predicate Tokenless(links: Store) {
    forall k :: k in links ==> links[k].token.None?
  }

  /** Every stored link sits under its own key. */
  ghost predicate KeysConsistent(store: Store) {
    forall k :: k in store ==> store[k].key == k
  }

  const NoClicks: Analytics := Analytics(0, [], [])

  /** The casts validation applies: `privado` to a boolean, `expira_em` to a valid date. */
  predicate Castable(d: Draft) {
    CastBoolean(d.privado).Some? && (d.expiraEm.Some? ==> ValidTime(d.expiraEm.value))
  }

  /**
   * `LinkModel.create(draft)`: `key` and `url` are required (a missing or empty
   * string fails validation), `privado` and `expira_em` must cast, `key` must
   * not be taken, and every field left undefined takes its schema default.
   */
  function Create(store: Store, d: Draft, now: int): (r: Result<Link, CreateError>)
    ensures r.Ok? <==> Truthy(d.key) && Truthy(d.url) && Castable(d) && d.key.value !in store
    ensures Truthy(d.key) && Truthy(d.url) && !Castable(d) ==> r == Err(CastFailed)
    ensures r.Ok? ==> r.value.key == d.key.value && r.value.url == d.url.value
    ensures r.Ok? ==> r.value.criadoPor == d.criadoPor && r.value.senha == d.senha
    ensures r.Ok? ==> Some(r.value.privado) == CastBoolean(d.privado)
    ensures r.Ok? ==> r.value.expiraEm == d.expiraEm && r.value.token.None?
    ensures r.Ok? ==> !r.value.handshakeUsado && r.value.analytics == NoClicks && r.value.criadoEm == now
  {
    if !Truthy(d.key) then Err(KeyRequired)
    else if !Truthy(d.url) then Err(UrlRequired)
    else if !Castable(d) then Err(CastFailed)
    else if d.key.value in store then Err(DuplicateKey)
    else Ok(Link(d.key.value, None, d.url.value, d.criadoPor, d.senha, CastBoolean(d.privado).value,
                 d.expiraEm, false, NoClicks, now))
  }

  /** Persisting a created link: it lands under its key and nothing else moves. */
  function Insert(store: Store, l: Link): (s: Store)
    requires l.key !in store
    ensures s.Keys == store.Keys + {l.key}
    ensures KeysConsistent(store) ==> KeysConsistent(s)
    ensures forall k :: k in store ==> s[k] == store[k]
  {
    store[l.key := l]
  }

  /** The fields of a link the resolvers read back from its JSON copy. */
  datatype LinkView = LinkView(url: string, senha: Option<string>, privado: bool, criadoPor: Option<UserId>)

  function View(l: Link): LinkView {
    LinkView(l.url, l.senha, l.privado, l.criadoPor)
  }

  /** The document `verifyToken` looks for, with the field names that controller reads. */
  datatype HandshakeRecord = HandshakeRecord(
    shortUrl: string,
    token: string,
    originalUrl: string,
    expiresAt: Option<int>,
    criadoPor: Option<UserId>)
}
