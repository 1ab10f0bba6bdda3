/**
 * The User document of the current account controller: fields, schema
 * defaults and the required/unique constraints checked on save. Users are
 * kept in insertion order, the order in which `findOne` meets them.
 */
module UserModel {
  import opened Wrappers
  import opened JsString
  import opened LinkModel

  datatype User = User(
    id: UserId,
    nome: string,
    email: string,
    password: string,
    links: seq<string>,
    refreshToken: Option<string>,
    accessToken: Option<string>,
    createdAt: int,
    verificado: bool,
    verificationCode: Option<string>,
    resetPasswordToken: Option<string>,
    resetPasswordExpires: Option<int>)

  /** The fields handed to `new UserModel(...)`; `None` is a field left undefined. */
  datatype Draft = Draft(
    nome: Option<string>,
    email: Option<string>,
    password: Option<string>,
    verificado: Option<bool>,
    verificationCode: Option<string>)

  datatype SaveError = NomeRequired | EmailRequired | PasswordRequired | DuplicateEmail

  /** Fifteen minutes, in milliseconds. */
  const ResetWindowMs: int := 15 * 60 * 1000

  predicate EmailTaken(users: seq<User>, email: string) {
    exists i :: 0 <= i < |users| && users[i].email == email
  }

  /**
   * `new UserModel(draft).save()` for a fresh `_id`: `nome`, `email` and
   * `password` are required, `email` is unique, and the defaults fill the
   * rest — no links, no tokens, not verified, and a reset deadline fifteen
   * minutes after creation.
   */
  function NewUser(users: seq<User>, id: UserId, d: Draft, now: int): (r: Result<User, SaveError>)
    ensures r.Ok? <==> Truthy(d.nome) && Truthy(d.email) && Truthy(d.password) && !EmailTaken(users, d.email.value)
    ensures r.Ok? ==> r.value.id == id && r.value.email == d.email.value && r.value.nome == d.nome.value
    ensures r.Ok? ==> r.value.links == [] && r.value.refreshToken.None? && r.value.accessToken.None?
    ensures r.Ok? ==> r.value.verificado == (d.verificado == Some(true))
    ensures r.Ok? ==> r.value.verificationCode == d.verificationCode && r.value.resetPasswordToken.None?
    ensures r.Ok? ==> r.value.resetPasswordExpires == Some(now + ResetWindowMs) && r.value.createdAt == now
  {
    if !Truthy(d.nome) then Err(NomeRequired)
    else if !Truthy(d.email) then Err(EmailRequired)
    else if !Truthy(d.password) then Err(PasswordRequired)
    else if EmailTaken(users, d.email.value) then Err(DuplicateEmail)
    else Ok(User(id, d.nome.value, d.email.value, d.password.value, [], None, None, now,
                 d.verificado.GetOr(false), d.verificationCode, None, Some(now + ResetWindowMs)))
  }

  /**
   * `findOne(filter)`: the position of the first document the filter
   * accepts. Both user collections, current and legacy, are searched with it.
   */
  function FindFirst<T>(docs: seq<T>, p: T -> bool): (r: Option<nat>)
    ensures r.Some? ==> r.value < |docs| && p(docs[r.value])
    ensures r.Some? ==> forall j :: 0 <= j < r.value ==> !p(docs[j])
    ensures r.None? ==> forall j :: 0 <= j < |docs| ==> !p(docs[j])
  {
    if |docs| == 0 then None
    else if p(docs[0]) then Some(0)
    else match FindFirst(docs[1..], p)
      case None => None
      case Some(i) => Some(i + 1)
  }

  function FindByEmail(users: seq<User>, email: string): (r: Option<nat>)
    ensures r.Some? ==> r.value < |users| && users[r.value].email == email
    ensures r.None? <==> !EmailTaken(users, email)
  {
    FindFirst(users, (u: User) => u.email == email)
  }

  function FindById(users: seq<User>, id: UserId): (r: Option<nat>)
    ensures r.Some? ==> r.value < |users| && users[r.value].id == id
    ensures r.None? ==> forall j :: 0 <= j < |users| ==> users[j].id != id
  {
    FindFirst(users, (u: User) => u.id == id)
  }

  /** `save()` of an edited user: it replaces the stored copy in place. */
  function Replace(users: seq<User>, i: nat, u: User): (r: seq<User>)
    requires i < |users|
    ensures |r| == |users| && r[i] == u
    ensures forall j :: 0 <= j < |users| && j != i ==> r[j] == users[j]
  {
    users[i := u]
  }
}
