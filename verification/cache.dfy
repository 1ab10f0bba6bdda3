/**
 * The Redis cache as the controllers use it: `GET key` and `SET key value EX
 * seconds`. An entry answers reads up to and including its expiry instant
 * (Redis treats a key as expired only once the clock is past it) and is gone
 * after it.
 */
module Cache {
  import opened Wrappers
  import opened LinkModel

  /** A cached value: the JSON of a link, or a bare string (the handshake cache holds URLs). */
  datatype Value = LinkJson(view: LinkView) | Text(text: string)

  datatype Entry = Entry(value: Value, expiresAt: int)

  type Cache = map<string, Entry>

  const SecondMs: int := 1000

  /** `GET key` at instant `now`. */
  function Get(c: Cache, key: string, now: int): (r: Option<Value>)
    ensures r.Some? <==> key in c && now <= c[key].expiresAt
    ensures r.Some? ==> r.value == c[key].value
  {
    if key in c && now <= c[key].expiresAt then Some(c[key].value) else None
  }

  /**
   * The text stored for a value: a bare string as is, a link as its JSON
   * object (the escaping of quotes inside the strings is not modelled).
   */
  function Serialised(v: Value): string {
    match v
    case Text(t) => t
    case LinkJson(l) =>
      "{\"url\":\"" + l.url + "\",\"privado\":" + (if l.privado then "true" else "false") + "}"
  }

  /** `!data` on what `GET key` returned: nothing live, or the empty string. */
  predicate Miss(c: Cache, key: string, now: int) {
    Get(c, key, now).None? || Get(c, key, now) == Some(Text(""))
  }

  /**
   * `SET key value EX ttl` at instant `now`. Redis refuses a non-positive
   * expire time, which the caller sees as a thrown error (`None`).
   */
  function SetEx(c: Cache, key: string, v: Value, ttlSeconds: int, now: int): (r: Option<Cache>)
    ensures r.None? <==> ttlSeconds <= 0
    ensures r.Some? ==> r.value.Keys == c.Keys + {key}
    ensures r.Some? ==> r.value[key] == Entry(v, now + ttlSeconds * SecondMs)
    ensures r.Some? ==> forall k :: k in c && k != key ==> r.value[k] == c[k]
  {
    if ttlSeconds <= 0 then None else Some(c[key := Entry(v, now + ttlSeconds * SecondMs)])
  }

  /** An accepted write replaces exactly the one entry. */
  lemma SetExWrites(c: Cache, key: string, v: Value, ttlSeconds: int, now: int)
    requires ttlSeconds > 0
    ensures SetEx(c, key, v, ttlSeconds, now) == Some(c[key := Entry(v, now + ttlSeconds * SecondMs)])
  {
  }

  /** A value just written reads back until `ttl` seconds have passed, then never again. */
  lemma GetAfterSet(c: Cache, key: string, v: Value, ttlSeconds: int, now: int, t: int)
    requires ttlSeconds > 0
    ensures Get(SetEx(c, key, v, ttlSeconds, now).value, key, t) ==
            (if t <= now + ttlSeconds * SecondMs then Some(v) else None)
  {
  }

  /** Writing one key leaves every other key's reads untouched. */
  lemma SetLeavesOthers(c: Cache, key: string, v: Value, ttlSeconds: int, now: int, other: string, t: int)
    requires ttlSeconds > 0 && other != key
    ensures Get(SetEx(c, key, v, ttlSeconds, now).value, other, t) == Get(c, other, t)
  {
  }
}
