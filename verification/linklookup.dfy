/**
 * The cache-then-store lookup shared by the protected and private resolvers:
 * read the cache; on a miss read the link collection and, when the link is
 * there, cache its JSON for an hour.
 */
module LinkLookup {
  import opened Wrappers
  import opened LinkModel
  import opened AppState
  import C = Cache

  const RefillSeconds: int := 3600

  datatype Lookup =
    | Cached(view: LinkView)
      /** Read from the collection; `cache` is the cache after the one-hour refill. */
    | Loaded(view: LinkView, cache: C.Cache)
    | Absent
      /** A bare string sits under the key: `JSON.parse` throws on it. */
    | Garbled

  function Find(links: Store, cache: C.Cache, key: string, now: int): (r: Lookup)
    ensures r.Cached? <==> !C.Miss(cache, key, now) && C.Get(cache, key, now).value.LinkJson?
    ensures r.Cached? ==> C.Get(cache, key, now) == Some(C.LinkJson(r.view))
    ensures r.Garbled? <==> !C.Miss(cache, key, now) && C.Get(cache, key, now).value.Text?
    ensures r.Absent? <==> C.Miss(cache, key, now) && key !in links
    ensures r.Loaded? <==> C.Miss(cache, key, now) && key in links
    ensures r.Loaded? ==> r.view == View(links[key]) &&
                          r.cache == cache[key := C.Entry(C.LinkJson(r.view), now + RefillSeconds * C.SecondMs)]
  {
    if !C.Miss(cache, key, now) then
      match C.Get(cache, key, now).value
      case LinkJson(v) => Cached(v)
      case Text(_) => Garbled
    else if key !in links then Absent
    else
      var v := View(links[key]);
      Loaded(v, C.SetEx(cache, key, C.LinkJson(v), RefillSeconds, now).value)
  }

  /** The cache after a lookup: refilled on a load, untouched otherwise. */
  function CacheAfter(cache: C.Cache, l: Lookup): C.Cache {
    if l.Loaded? then l.cache else cache
  }

  /**
   * Under the state invariant a lookup of a stored link never meets a bare
   * string and always yields that link's view, whether the cache was
   * warm or cold, so the fallback answers with the same URL the cache would.
   */
  lemma FindAgreesWithStore(st: State, key: string, now: int)
    requires Valid(st)
    requires key in st.links
    ensures var r := Find(st.links, st.cache, key, now);
            (r.Cached? || r.Loaded?) && r.view == View(st.links[key])
  {
  }

  /** The refill keeps the state invariant: what it caches is the stored link's view. */
  lemma FindPreservesValid(st: State, key: string, now: int)
    requires Valid(st)
    ensures Valid(st.(cache := CacheAfter(st.cache, Find(st.links, st.cache, key, now))))
  {
    var r := Find(st.links, st.cache, key, now);
    if r.Loaded? {
      var c := r.cache;
      forall k | k in c && c[k].value.LinkJson?
        ensures k in st.links && c[k].value.view == View(st.links[k])
      {
        if k != key {
          assert c[k] == st.cache[k];
        }
      }
    }
  }
}
