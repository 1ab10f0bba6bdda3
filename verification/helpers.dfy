/**
 * The stand-alone helpers: URL checking, short-id generation, reading the user
 * id out of a Bearer header, and validating and hashing link data.
 */
module Helpers {
  import opened Wrappers
  import opened JsString
  import opened Oracles
  import Hex

  /** `checkUrl`: whether `new URL(url)` succeeds; it never throws. */
  function CheckUrl(env: Env, url: string): bool {
    env.validUrl(url)
  }

  /** `generateId`: the three random bytes as six lower-case hex digits. */
  function GenerateId(bytes: Hex.Random3): (id: string)
    ensures |id| == 6 && Hex.IsLowerHex(id)
    ensures Hex.Decode(id) == Some(bytes)
  {
    Hex.DecodeEncode(bytes);
    Hex.Encode(bytes)
  }

  /**
   * The token of an Authorization header that starts with "Bearer ": the
   * second space-separated segment, `authHeader.split(' ')[1]`.
   */
  function BearerToken(authorization: Option<string>): (t: Option<string>)
    ensures t.Some? <==> authorization.Some? && StartsWith(authorization.value, "Bearer ")
    ensures t.Some? ==> t == SecondSegment(authorization.value) && ' ' !in t.value
  {
    if authorization.Some? && StartsWith(authorization.value, "Bearer ") then
      BearerHasSecondSegment(authorization.value);
      SecondSegment(authorization.value)
    else None
  }

  /**
   * `decodeJWT`: the `userId` claim of the Bearer token of the Authorization
   * header, or nothing when the header is missing, uses another scheme, or
   * the token does not verify.
   */
  function DecodeJwt(env: Env, authorization: Option<string>): (r: Option<string>)
    ensures r.Some? ==> authorization.Some? && StartsWith(authorization.value, "Bearer ")
    ensures r.Some? ==> env.verify(JwtSecret, BearerToken(authorization).value) == Some(Claims(r))
    ensures BearerToken(authorization).Some? && env.verify(JwtSecret, BearerToken(authorization).value).Some? ==>
              r == env.verify(JwtSecret, BearerToken(authorization).value).value.userId
  {
    match BearerToken(authorization)
    case None => None
    case Some(token) =>
      match env.verify(JwtSecret, token)
      case None => None
      case Some(claims) => claims.userId
  }

  /**
   * `decodeJWT` on the header a client builds as "Bearer " followed by a
   * token: the `userId` claim of that token when it verifies, nothing
   * otherwise.
   */
  lemma DecodeBearerHeader(env: Env, t: string)
    requires ' ' !in t
    ensures DecodeJwt(env, Some("Bearer " + t)) ==
            (if env.verify(JwtSecret, t).Some? then env.verify(JwtSecret, t).value.userId else None)
  {
    assert "Bearer " + t == "Bearer" + " " + t;
    SecondSegmentOfJoin("Bearer", t);
    assert StartsWith("Bearer " + t, "Bearer ");
  }

  datatype LinkInput = LinkInput(url: string, id: Option<string>, exclusive: bool, password: Option<string>, name: Option<string>)

  datatype HashedLinkData = HashedLinkData(url: string, id: Option<string>, exclusive: bool, password: Option<string>, name: Option<string>)

  const AuthRequiredMessage: string := "Links exclusivos ou nomeados requerem autenticação."
  const ExclusiveWithPasswordMessage: string := "Link exclusivo não pode ter senha."
  const EmptyPasswordMessage: string := "A senha não pode ser vazia."

  /**
   * `createHashedLinkData`: refuse exclusive or named data without an owner
   * id, then exclusive data with a password, then a password that is blank
   * after trimming; otherwise copy the data with the trimmed password hashed.
   */
  function CreateHashedLinkData(env: Env, inp: LinkInput): (r: Result<HashedLinkData, string>)
    ensures (inp.exclusive || Truthy(inp.name)) && !Truthy(inp.id) ==> r == Err(AuthRequiredMessage)
    ensures !((inp.exclusive || Truthy(inp.name)) && !Truthy(inp.id)) && inp.exclusive && Truthy(inp.password) ==>
              r == Err(ExclusiveWithPasswordMessage)
    ensures !((inp.exclusive || Truthy(inp.name)) && !Truthy(inp.id)) && !(inp.exclusive && Truthy(inp.password)) &&
            inp.password.Some? && AllWhite(inp.password.value) ==>
              r == Err(EmptyPasswordMessage)
    ensures r.Ok? <==>
              && !((inp.exclusive || Truthy(inp.name)) && !Truthy(inp.id))
              && !(inp.exclusive && Truthy(inp.password))
              && !(inp.password.Some? && AllWhite(inp.password.value))
    ensures r.Ok? ==> r.value.url == inp.url && r.value.id == inp.id && r.value.exclusive == inp.exclusive && r.value.name == inp.name
    ensures r.Ok? ==> (r.value.password.None? <==> inp.password.None?)
    ensures r.Ok? && inp.password.Some? ==> r.value.password == Some(env.hash(Trim(inp.password.value)))
    ensures r.Ok? && r.value.exclusive ==> r.value.password.None?
    ensures r.Ok? && (r.value.exclusive || Truthy(r.value.name)) ==> Truthy(r.value.id)
  {
    if (inp.exclusive || Truthy(inp.name)) && !Truthy(inp.id) then Err(AuthRequiredMessage)
    else if inp.exclusive && Truthy(inp.password) then Err(ExclusiveWithPasswordMessage)
    else if inp.password.Some? && (TrimEmptyIffAllWhite(inp.password.value); |Trim(inp.password.value)| == 0) then
      Err(EmptyPasswordMessage)
    else
      var hashed := if inp.password.Some? then Some(env.hash(Trim(inp.password.value))) else None;
      Ok(HashedLinkData(inp.url, inp.id, inp.exclusive, hashed, inp.name))
  }
}
