/**
 * The older User document still used by the legacy account controller. It
 * differs from the current one in naming its display field `name`, keeping
 * links as plain strings and having no `accessToken` field.
 */
module LegacyUserModel {
  import opened Wrappers
  import opened JsString
  import opened LinkModel

  datatype LegacyUser = LegacyUser(
    id: UserId,
    name: string,
    email: string,
    password: string,
    links: seq<string>,
    refreshToken: Option<string>,
    createdAt: int,
    verificado: bool,
    verificationCode: Option<string>,
    resetPasswordToken: Option<string>,
    resetPasswordExpires: Option<int>)

  /**
   * The fields handed to `new UserModel(...)` that the schema knows; a field
   * the schema does not declare is dropped by Mongoose's strict mode.
   */
  datatype LegacyDraft = LegacyDraft(
    name: Option<string>,
    email: Option<string>,
    password: Option<string>,
    verificado: Option<bool>,
    verificationCode: Option<string>)

  datatype LegacySaveError = NameRequired | EmailRequired | PasswordRequired | DuplicateEmail

  const ResetWindowMs: int := 15 * 60 * 1000

  predicate EmailTaken(users: seq<LegacyUser>, email: string) {
    exists i :: 0 <= i < |users| && users[i].email == email
  }

  /**
   * Saving a new legacy user: `name`, `email` and `password` are required,
   * `email` is unique; defaults are no links, no refresh token, not verified
   * and a reset deadline fifteen minutes after creation.
   */
  function NewLegacyUser(users: seq<LegacyUser>, id: UserId, d: LegacyDraft, now: int): (r: Result<LegacyUser, LegacySaveError>)
    ensures r.Ok? <==> Truthy(d.name) && Truthy(d.email) && Truthy(d.password) && !EmailTaken(users, d.email.value)
    ensures r.Ok? ==> r.value.id == id && r.value.email == d.email.value && r.value.name == d.name.value
    ensures r.Ok? ==> r.value.links == [] && r.value.refreshToken.None?
    ensures r.Ok? ==> r.value.verificado == (d.verificado == Some(true)) && r.value.verificationCode == d.verificationCode
    ensures r.Ok? ==> r.value.resetPasswordExpires == Some(now + ResetWindowMs) && r.value.resetPasswordToken.None?
  {
    if !Truthy(d.name) then Err(NameRequired)
    else if !Truthy(d.email) then Err(EmailRequired)
    else if !Truthy(d.password) then Err(PasswordRequired)
    else if EmailTaken(users, d.email.value) then Err(DuplicateEmail)
    else Ok(LegacyUser(id, d.name.value, d.email.value, d.password.value, [], None, now,
                       d.verificado.GetOr(false), d.verificationCode, None, Some(now + ResetWindowMs)))
  }
}
