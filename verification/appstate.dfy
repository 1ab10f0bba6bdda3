/**
 * Everything a request can read or change: the link collection, the Redis
 * cache, the user collection and the documents the handshake looks up.
 */
module AppState {
  import opened Wrappers
  import opened JsString
  import opened LinkModel
  import opened UserModel
  import C = Cache
  import Hex

  datatype State = State(links: Store, cache: C.Cache, users: seq<User>, handshakes: seq<HandshakeRecord>)

  /** The access policy a stored link keeps: a private link has an owner and no password. */
  predicate PolicyOk(l: Link) {
    l.privado ==> l.criadoPor.Some? && l.senha.None?
  }

  /** The shape of a generated key: six lower-case hex digits. */
  predicate LinkKeyShape(k: string) {
    |k| == 6 && Hex.IsLowerHex(k)
  }

  /**
   * The state invariant: links sit under generated keys and keep their
   * policy, every cached link JSON under a key mirrors the stored link with
   * that key, and bare strings are cached only under keys of another shape.
   */
  ghost predicate Valid(st: State) {
    && KeysConsistent(st.links)
    && (forall k :: k in st.links ==> LinkKeyShape(k) && PolicyOk(st.links[k]))
    && (forall k :: k in st.cache && st.cache[k].value.Text? ==> !LinkKeyShape(k))
    && (forall k :: k in st.cache && st.cache[k].value.LinkJson? ==>
          k in st.links && st.cache[k].value.view == View(st.links[k]))
  }

  /** `UserModel.findByIdAndUpdate(id, { $push: { links: linkId } })`. */
  function PushLink(users: seq<User>, id: UserId, linkId: string): (r: seq<User>)
    ensures |r| == |users|
    ensures FindById(users, id).None? ==> r == users
    ensures FindById(users, id).Some? ==>
      var i := FindById(users, id).value;
      r[i] == users[i].(links := users[i].links + [linkId]) &&
      forall j :: 0 <= j < |users| && j != i ==> r[j] == users[j]
  {
    match FindById(users, id)
    case None => users
    case Some(i) => Replace(users, i, users[i].(links := users[i].links + [linkId]))
  }
}
