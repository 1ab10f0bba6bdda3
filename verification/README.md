# linkswift in Dafny

A model of the core of linkswift, a URL shortener with an Express/MongoDB/Redis
backend and a React frontend. The model covers:

- **Link creation.** `shortenLinks` runs its ordered checks: an anonymous
  caller may not ask for a private or named link, a link may not be both
  private and protected by a password, the URL must parse, and the password
  needs at least six UTF-16 code units. It then draws random keys until one
  is fresh and stores the document, whose `privado` and expiry must survive
  Mongoose's casts. It writes a Redis entry that lives `86400 * days`
  seconds, and the owner's link list gains the new link.
- **Link resolution.** `redirectToLinks`, `checkLink` and the public
  controller read the cache only, and a miss is answered 404. The protected
  and private controllers fall back to the collection and refill a one-hour
  entry. On a cache miss, the handshake's `verifyToken` looks the link up,
  checks expiry and owner, caches the URL for 60 seconds and sets an
  `auth_<id>` cookie. As written, it looks in the link collection for fields
  no link has. The model gives that code and the record lookup its checks
  mean (see Findings).
- **Accounts.** The current `userController` and the older `authController`
  both cover register, verification code, resend, login, refresh token,
  logout, forgotten password and reset. The older controller is the one
  the server mounts, for every operation but forgotten password and
  reset, which no mounted route reaches. `AccountFlows` and `LegacyFlows` compose each
  controller's transitions into end-to-end paths.
- **Request authentication and errors.** Both generations of authentication
  middleware are modelled, with the current one's precedence of header
  over cookies. So are the `ForbiddenError`/`UnauthorizedError` classes and
  the error handler that maps errors to a status and body.
- **Helpers and models.** `checkUrl`, `generateId`, `decodeJWT` and
  `createHashedLinkData` are modelled, as are the link and user documents
  with their defaults.
- **Frontend.**
  - The session store: `login`, `logout`, `setUser` and `setAccessToken`.
  - The shortening form: its two mutually exclusive switches, the clamped
    days field, and the `handleSubmit` validation and payload.
  - The client's `redirectToLink` routing.

The model has no I/O:

- The collection and the cache are values in a `State` record.
- Time is an integer count of milliseconds.
- URL parsing, bcrypt and JWT signing/verification are oracles, held as
  function-typed fields of an `Env` value.
- Random bytes are parameters.

Every request is one function from state to state and response.

Where the code and its description disagree, the code is followed:

- Lifetimes are counted from the instant of creation in whole days of
  86 400 000 ms.
- The handshake queries link documents by `shortUrl` and `token` and reads
  `expiresAt` and `originalUrl`. The link schema declares `token` but none
  of the other three, and no code sets a `token`, so a lookup that misses
  the cache finds no link. `Handshake.VerifyTokenAsWritten` models that
  code. `Handshake.VerifyToken` is the lookup over handshake records
  that the checks evidently mean.

## Model

| member | source | states |
|---|---|---|
| Hex.Encode | backend/src/utils/helpers.ts:28-30 | `toString('hex')` gives two lower-case hex digits per byte |
| Hex.ToUpper | backend/src/controllers/userController.ts:30 | upper-casing keeps the length and changes exactly the Latin lower-case letters |
| Hex.DigitValue | backend/src/utils/helpers.ts:28-30 | a hex digit of either case has a value below 16 |
| Hex.DecodeEncode | backend/src/utils/helpers.ts:28-30 | the base16 decoder of section 8 of RFC 4648 inverts the encoding: every byte string round-trips |
| Hex.UpperKeepsDigits | backend/src/controllers/userController.ts:30 | upper-casing a lower-case hex string gives an upper-case hex string with the same digit values |
| Hex.UpperDigit | backend/src/controllers/userController.ts:30 | one lower-case hex digit, upper-cased, is an upper-case digit of the same value |
| Hex.DecodeByDigitValues | backend/src/utils/helpers.ts:28-30 | strings with the same digit values decode alike |
| Hex.DecodeUpperEncode | backend/src/controllers/userController.ts:30 | a verification code still decodes to the bytes it was drawn from |
| Hex.EncodeInjective | backend/src/controllers/linkController.ts:55-58 | distinct draws give distinct keys |
| Hex.DecodeStep | backend/src/utils/helpers.ts:28-30 | one decoder step: a valid digit pair in front of a decodable rest |
| Hex.DigitOfLower | backend/src/utils/helpers.ts:28-30 | the digit written for a value reads back as that value in either case |
| Hex.SplitByte | backend/src/utils/helpers.ts:28-30 | a byte is its high nibble times 16 plus its low nibble |
| JsString.TrimSpec | frontend/src/pages/ShortLinks.tsx:79-85 | `trim()` removes a white prefix and a white suffix: the result is the input between them, character for character |
| JsString.TrimEdges | frontend/src/pages/ShortLinks.tsx:79-85 | a trimmed string neither starts nor ends with white space |
| JsString.PaddedSlice | frontend/src/pages/ShortLinks.tsx:79-85 | the trimmed string sits between the two stripped white runs |
| JsString.TrimEmptyIffAllWhite | backend/src/utils/helpers.ts:100-106 | a string trims to empty exactly when every character is white space |
| JsString.IndexOf | backend/src/middleware/authMiddleware.ts:19 | the first position of a character, or none when it does not occur |
| JsString.SecondSegment | backend/src/middleware/authMiddleware.ts:19 | `split(' ')[1]` exists exactly when the string holds a space, and holds none itself |
| JsString.SecondSegmentIsSplitIndex | backend/src/middleware/authMiddleware.ts:19 | the second segment is piece 1 of the split |
| JsString.BearerHasSecondSegment | backend/src/middlewares/authMiddleware.ts:21-23 | a header starting "Bearer " always has a second segment |
| JsString.Utf16Length | backend/src/controllers/linkController.ts:61 | `length` counts UTF-16 code units: at least one and at most two per code point |
| JsString.Utf16LengthIsSizeIffBmp | backend/src/controllers/linkController.ts:61 | the length equals the number of code points exactly when none lies outside the Basic Multilingual Plane |
| JsString.Utf16LengthSplit | frontend/src/pages/ShortLinks.tsx:74-76 | lengths add up over any cut of a string |
| JsString.Utf16LengthOfTrim | frontend/src/pages/ShortLinks.tsx:74-85 | trimming never makes a string longer |
| JsString.ThreeEmojiAreSixUnits | backend/src/controllers/linkController.ts:61 | three emoji have length six |
| JsString.SecondSegmentOfJoin | backend/src/utils/helpers.ts:32-46 | splitting two space-free words joined by a space gives back the second |
| JsString.ToDecimal | frontend/src/pages/ShortLinks.tsx:212-217 | a number written back in decimal is a non-empty string of digits |
| JsString.ValueOfDecimal | frontend/src/pages/ShortLinks.tsx:212-217 | the decimal digits of `n` have value `n` |
| JsString.ParseUnsignedNumeral | frontend/src/pages/ShortLinks.tsx:212-217 | the digits of a numeral parse back to its number |
| JsString.ParseIntOfNumeral | frontend/src/pages/ShortLinks.tsx:212-217 | `parseInt` of a numeral is its number |
| JsString.ParseIntToDecimal | frontend/src/pages/ShortLinks.tsx:212-217 | `parseInt(String(n)) == n` for every natural `n` |
| JsString.TrimNumeral | frontend/src/pages/ShortLinks.tsx:79-85 | trimming leaves a numeral unchanged |
| JsString.DigitPrefixAll | frontend/src/pages/ShortLinks.tsx:212-217 | an all-digit string is its own digit prefix |
| Cache.SetEx | backend/src/controllers/linkController.ts:96 | `SET … EX ttl` is refused for a ttl of zero or less; otherwise it writes one entry expiring `ttl` seconds on, and keeps the rest |
| Cache.SetExWrites | backend/src/controllers/linkController.ts:96 | an accepted write replaces exactly the one entry |
| Cache.GetAfterSet | backend/src/controllers/linkController.ts:96-115 | a written value reads back up to and including the instant `ttl` seconds on (Redis expires a key only once the clock is past it), then never again |
| Cache.SetLeavesOthers | backend/src/controllers/linkController.ts:96 | writing one key leaves the reads of every other key unchanged |
| Errors.NewForbidden | backend/src/errors/ForbiddenError.ts:9-30 | status is the given code or 403; message is the given one or "Acesso negado"; logging only when asked; context defaults to empty |
| Errors.NewUnauthorized | backend/src/errors/UnauthorizedError.ts:8-17 | status is always 401; message is the given one or "Não autorizado"; logging only when asked; context defaults to empty |
| Errors.Entries | backend/src/errors/ForbiddenError.ts:24-26 | the `errors` getter is exactly one entry with the message and the context |
| Errors.HandleError | backend/src/middlewares/errors.ts:4-26 | a custom error is answered with its own status and message and logged only on its flag; anything else gives 500 with the generic message and is logged |
| Errors.ContextNeverSent | backend/src/middlewares/errors.ts:16-18 | errors that differ only in their context render alike |
| Errors.UnauthorizedAlways401 | backend/src/errors/UnauthorizedError.ts:15-21 | whatever its parameters, an UnauthorizedError is answered 401 with its message |
| LinkModel.CastBoolean | backend/src/models/linkModel.ts:10 | Mongoose's Boolean cast: a JSON boolean is kept; only truthy values cast to true; arrays and objects fail |
| LinkModel.CastDisagreesOnlyOnFalseWords | backend/src/controllers/linkController.ts:77-90 | the cast and `!!privado` differ exactly on the strings "false", "0" and "no" |
| LinkModel.Create | backend/src/models/linkModel.ts:4-19 | a document is created exactly when key and url are given, `privado` casts to a boolean, the expiry is a valid date and the key is unused; a failed cast is its own error; owner, password and expiry default to null, `privado` and `handshake_usado` to false, and analytics start at zero clicks |
| LinkModel.Insert | backend/src/models/linkModel.ts:5 | the new link lands under its own key, and every other link stays put |
| UserModel.NewUser | backend/src/models/userModel.ts:4-19 | a user is saved exactly when name, email and password are given and the email is unused; links start empty, tokens null, `verificado` false, reset deadline 15 minutes on |
| UserModel.FindFirst | backend/src/controllers/userController.ts:26 | `findOne`: the first document the filter accepts, or none when none does; both user collections use it |
| UserModel.FindByEmail | backend/src/controllers/userController.ts:26 | a user is found by e-mail exactly when the e-mail is taken |
| UserModel.FindById | backend/src/controllers/userController.ts:180 | a user is found by id, or no user has that id |
| UserModel.Replace | backend/src/controllers/userController.ts:86 | `save()` replaces the one edited user and leaves the rest |
| LegacyUserModel.NewLegacyUser | backend/src/models/User.ts:4-18 | a legacy user is saved exactly when `name`, email and password are given and the email is unused; defaults as in the schema |
| AppState.PushLink | backend/src/controllers/linkController.ts:98-100 | `$push` appends the new link, identified by its key, to the owner's list only; an unknown owner changes nothing |
| Helpers.GenerateId | backend/src/utils/helpers.ts:28-30 | a key is six lower-case hex characters that decode to the drawn bytes |
| Helpers.BearerToken | backend/src/middlewares/authMiddleware.ts:21-23 | a header token is taken exactly when the header starts with "Bearer ", and it is the second space-separated word |
| Helpers.DecodeJwt | backend/src/utils/helpers.ts:32-46 | a user id only for a "Bearer " header whose token verifies, and then the id it carries |
| Helpers.DecodeBearerHeader | backend/src/utils/helpers.ts:32-46 | the header "Bearer " + t, for a token t without spaces, gives t's `userId` claim when t verifies and nothing otherwise |
| Helpers.CreateHashedLinkData | backend/src/utils/helpers.ts:81-116 | refusals in order: exclusive or named data without an id, exclusive data with a password, a password blank after trimming; success exactly when none applies, with the fields copied and a given password replaced by the hash of its trimmed text |
| AuthMiddleware.Or | backend/src/middlewares/authMiddleware.ts:26-28 | `a \|\| b`: the first truthy operand, else the second |
| AuthMiddleware.SelectToken | backend/src/middlewares/authMiddleware.ts:21-28 | the Bearer header wins; after it, the cookies in the order `token`, `accessToken`, `refreshToken` |
| AuthMiddleware.UserOfToken | backend/src/middlewares/authMiddleware.ts:7-16 | a user exactly when a token is present, verifies, carries an id, and a stored user has that id |
| AuthMiddleware.Authenticate | backend/src/middlewares/authMiddleware.ts:19-48 | the request goes on exactly when a user was found; otherwise 401 and no `next` |
| AuthMiddleware.Optional | backend/src/middlewares/authMiddleware.ts:51-74 | always goes on, with the user when there is one |
| AuthMiddleware.GatesAgree | backend/src/middlewares/authMiddleware.ts:19-74 | the mandatory gate lets a request through exactly when the optional one finds a user, with the same user |
| AuthMiddleware.HeaderOverridesCookies | backend/src/middlewares/authMiddleware.ts:21-28 | with a Bearer token present, the cookies make no difference to either gate |
| AuthMiddleware.RefreshCookieAloneRefused | backend/src/middlewares/authMiddleware.ts:26-37 | a refresh-token cookie that does not verify under the access secret is refused 401 |
| LegacyAuthMiddleware.HeaderToken | backend/src/middleware/authMiddleware.ts:19 | the token is the second space-separated word of the header, whatever the scheme |
| LegacyAuthMiddleware.UserOfToken | backend/src/middleware/authMiddleware.ts:6-15 | a user exactly when the token verifies, carries an id, and a legacy user has it |
| LegacyAuthMiddleware.Authenticate | backend/src/middleware/authMiddleware.ts:17-30 | the request goes on exactly when a user was found, else 401 |
| LegacyAuthMiddleware.Optional | backend/src/middleware/authMiddleware.ts:32-45 | always goes on, carrying the user when found |
| LegacyAuthMiddleware.SchemeIgnored | backend/src/middleware/authMiddleware.ts:19 | on a Bearer header both generations read the same token; on another scheme only the legacy one takes a token |
| LegacyAuthMiddleware.NoSpaceNoUser | backend/src/middleware/authMiddleware.ts:19-27 | a header without a space is refused by the gate and carries no user through the optional one |
| LinkCreate.LifetimeDays | backend/src/controllers/linkController.ts:71 | `parseInt(expira_em) \|\| 7` is never zero |
| LinkCreate.LifetimeOfDecimal | backend/src/controllers/linkController.ts:71 | a decimal lifetime is taken as is, and zero means seven days |
| LinkCreate.FreshKeyIndex | backend/src/controllers/linkController.ts:55-58 | the first draw whose key is not in the collection; every earlier draw collided |
| LinkCreate.NewLink | backend/src/controllers/linkController.ts:75-82 | the stored document has the fresh key, the URL, the password hash (or null), the cast private flag, the caller as owner, and an expiry `days` days on |
| LinkCreate.Persist | backend/src/controllers/linkController.ts:75-103 | a failed cast of `privado` or of the expiry date is a 500 with nothing written; otherwise, with a positive lifetime, the link is stored, its cache entry written, the owner's list extended, and 201 answered; with a negative lifetime Redis refuses after the document was stored |
| LinkCreate.Stored | backend/src/controllers/linkController.ts:96-103 | once the cache write is accepted, the owner's list gains the new link and the answer is 201 with the short URL |
| LinkCreate.WritesCreate | backend/src/controllers/linkController.ts:75-96 | the document and the cache entry written are the ones a creation describes |
| LinkCreate.Shorten | backend/src/controllers/linkController.ts:16-104 | refusals in source order: anonymous private/named 401, private with password 400, bad URL 400, a password under six UTF-16 code units 400, a failed cast 500, each with nothing written; a valid request with a positive lifetime, a valid expiry date and a fresh key is created, its cache entry mirroring the document, and answered 201 |
| LinkCreate.ShortenAsWritten | backend/src/controllers/linkController.ts:75-94 | as written, the cache entry carries `!!privado` while the document stores the cast; answer, collection and users are those of `Shorten` |
| LinkCreate.AsWrittenAgreesUnlessFalseWord | backend/src/controllers/linkController.ts:77-90 | unless `privado` is one of the strings "false", "0" or "no", the code as written and the corrected version coincide |
| LinkCreate.FalseWordCachedAsPrivate | backend/src/controllers/linkController.ts:77-90 | `privado: "false"` stores a public link whose cached copy says private, breaking the state invariant |
| LinkCreate.InsertPreservesValid | backend/src/controllers/linkController.ts:75-96 | adding a well-formed link with a mirroring cache entry keeps the state invariant |
| LinkCreate.PersistPreservesValid | backend/src/controllers/linkController.ts:75-100 | the writes of a creation keep the state invariant |
| LinkCreate.ShortenPreservesValid | backend/src/controllers/linkController.ts:16-104 | every request, accepted or refused, keeps the state invariant: keys unique, private links owned and without password, cached copies equal to the stored link |
| LinkCreate.ShortenKeepsTokenless | backend/src/controllers/linkController.ts:75-82 | no request, accepted or refused, gives a link a `token`: a collection without tokens stays without them |
| LinkCreate.NegativeLifetimeLeavesOrphan | backend/src/controllers/linkController.ts:71-96 | a negative lifetime whose expiry is still a valid date gets a 500, while the document stays stored, uncached and off the owner's list |
| LinkCreate.OutOfRangeLifetimeStoresNothing | backend/src/controllers/linkController.ts:71-82 | a lifetime that puts the expiry outside the range a `Date` holds gets a 500 and writes nothing |
| LinkLookup.Find | backend/src/controllers/linkProtectedController.ts:12-23 | a live cache entry is used; on a miss the collection is read (absent, or loaded and re-cached for 3600 s); a bare string is reported as unparsable |
| LinkLookup.FindAgreesWithStore | backend/src/controllers/linkPrivateController.ts:56-69 | under the invariant, a stored key is found with the stored link's view, from the cache or the collection |
| LinkLookup.FindPreservesValid | backend/src/controllers/linkPrivateController.ts:68 | the one-hour refill keeps the state invariant |
| LinkResolve.Decide | backend/src/controllers/linkController.ts:123-169 | a private link needs its owner (`auth_required`, then Forbidden); a password link needs the right password (`password_required`, then "Senha incorreta"); a right password answers 201 with the URL; a link with neither flag redirects |
| LinkResolve.RedirectToLinks | backend/src/controllers/linkController.ts:106-174 | a cache miss is NotFound, and the collection is never read; a cached link is decided as above |
| LinkResolve.CheckLink | backend/src/controllers/linkController.ts:274-291 | a miss is NotFound; a cached link reports its flags, and its URL only when it has no password |
| LinkResolve.CheckLinkDisclosesPrivateUrl | backend/src/controllers/linkController.ts:123-290 | a private link without password has its URL shown by `checkLink` to anyone, while `redirectToLinks` refuses a stranger |
| LinkProtected.Decide | backend/src/controllers/linkProtectedController.ts:25-42 | no password on the link gives 400; a missing password gives 400; a wrong one gives 401; only a matching one redirects to the URL |
| LinkProtected.RedirectProtected | backend/src/controllers/linkProtectedController.ts:8-43 | a cache miss falls back to the collection (404 if absent) and refills the cache; the found link is decided as above |
| LinkProtected.ProtectedAnswersFromStore | backend/src/controllers/linkProtectedController.ts:12-42 | under the invariant, the answer for a stored key is the decision on the stored link, and the state stays valid |
| LinkProtected.ServesExpiredLink | backend/src/controllers/linkProtectedController.ts:12-21 | after the cache entry lapses, the fallback still redirects with the right password, whatever `expira_em` says |
| LinkPrivate.Decide | backend/src/controllers/linkPrivateController.ts:72-81 | success (200 with the URL) exactly when the link is private and its owner is the token's user; non-private gives 400; another owner gives 401 |
| LinkPrivate.RedirectPrivate | backend/src/controllers/linkPrivateController.ts:34-85 | a missing or unverifiable token is 401 before any lookup; a miss falls back to the collection (404 if absent) and refills for 3600 s |
| LinkPrivate.PrivateOnlyForOwner | backend/src/controllers/linkPrivateController.ts:41-81 | for a stored link, success exactly when a verified token names its owner and the link is private |
| LinkPublic.RedirectPublic | backend/src/controllers/linkPublicController.ts:6-23 | a miss is 404 without reading the collection; a link with a private flag or password is 400; only a link with neither flag redirects, to the cached URL |
| LinkPublic.PublicAgreesWithRedirect | backend/src/controllers/linkPublicController.ts:17-22 | whatever the public route redirects, `redirectToLinks` redirects to the same URL |
| Handshake.FirstWithToken | backend/src/controllers/handshakeController.ts:28 | the first position, in the collection's natural order, of a link carrying the token; none exactly when no link carries it |
| Handshake.FindLinkAsWritten | backend/src/controllers/handshakeController.ts:28 | `findOne({ shortUrl, token })` on link documents: with the undeclared `shortUrl` dropped, a link is found exactly when some link carries the token, and it carries it; with it kept, no link |
| Handshake.VerifyTokenAsWritten | backend/src/controllers/handshakeController.ts:20-50 | the written handler: a cached non-empty value is used without checks; otherwise no link gives 404, an owner clash on `criado_por` gives 401 "Não autorizado", and anything else caches "" for 60 s, sets cookie `auth_<id>` and redirects to "undefined" |
| Handshake.AsWrittenNeverExpiresNorOpens | backend/src/controllers/handshakeController.ts:28-49 | as written, a store lookup never answers "Link expirado" and redirects only to "undefined"; with unknown filter fields kept, or when no link carries a token, it is always 404 |
| Handshake.AsWrittenCacheNeverHits | backend/src/controllers/handshakeController.ts:25-39 | as written, what a store lookup caches reads back as a miss, so every later request repeats the lookup |
| Handshake.VerifyTokenAsWrittenPreservesValid | backend/src/controllers/handshakeController.ts:38-39 | the written handler keeps the state invariant |
| Handshake.FindRecord | backend/src/controllers/handshakeController.ts:28 | the corrected lookup: the first handshake record for the (short id, token) pair, or none |
| Handshake.VerifyToken | backend/src/controllers/handshakeController.ts:20-50 | the corrected handler, over handshake records: the key is `handshake:<id>:<token>`; a cached URL is used without checks; otherwise no record gives 404, an expired one 401 "Link expirado", an owner clash 401 "Não autorizado"; success caches the URL for 60 s, sets cookie `auth_<id>` for 60000 ms and redirects |
| Handshake.CacheKeyIsNotLinkKey | backend/src/controllers/handshakeController.ts:24 | a handshake key never collides with a link key |
| Handshake.VerifyTokenPreservesValid | backend/src/controllers/handshakeController.ts:38-39 | opening by handshake keeps the state invariant |
| Handshake.RecordLookupOpensStoredUrl | backend/src/controllers/handshakeController.ts:28-49 | the corrected handler opens the stored URL of a live record whose owner does not clash with the caller |
| Handshake.CachedUrlSkipsChecks | backend/src/controllers/handshakeController.ts:24-39 | within 60 s of a first success the same URL is served again, without the expiry or owner checks |
| Accounts.VerificationCode | backend/src/controllers/userController.ts:30 | the code is six upper-case hex characters that decode to the drawn bytes |
| Accounts.FindByRefreshToken | backend/src/controllers/userController.ts:210 | the holder of a refresh token, or nobody holds it |
| Accounts.FindByResetToken | backend/src/controllers/userController.ts:278-281 | a user whose reset token matches and whose deadline is after now, or none |
| Accounts.Register | backend/src/controllers/userController.ts:14-73 | a missing field, mismatched passwords or a taken e-mail is 400 with nothing written; success appends an unverified user with a fresh code and answers 201 |
| Accounts.VerifyCode | backend/src/controllers/userController.ts:75-95 | unknown user 404, already verified 400, wrong code 400; success sets `verificado` and clears the code |
| Accounts.ResendCode | backend/src/controllers/userController.ts:97-119 | the stored code is replaced and nothing else about the user changes |
| Accounts.Login | backend/src/controllers/userController.ts:121-168 | unknown e-mail 404, wrong password 401; success stores the new refresh token and answers both tokens |
| Accounts.Refresh | backend/src/controllers/userController.ts:170-202 | success exactly when the token verifies, names a user, and equals that user's stored refresh token |
| Accounts.Logout | backend/src/controllers/userController.ts:204-226 | the holder of the presented token loses it; an unknown token is 404 |
| Accounts.ForgotPassword | backend/src/controllers/userController.ts:228-266 | the user gets the digest as reset token with a deadline 15 minutes on |
| Accounts.ResetPassword | backend/src/controllers/userController.ts:268-302 | success exactly for a live matching token; the password is re-hashed and token and deadline cleared |
| AccountFlows.FoundByEmailAt | backend/src/controllers/userController.ts:26 | a user is found at its position when no earlier user has its e-mail |
| AccountFlows.FoundByIdAt | backend/src/controllers/userController.ts:180 | under unique ids a user is found by id at its position |
| AccountFlows.ReplaceKeepsUniqueIds | backend/src/controllers/userController.ts:86 | saving a user keeps the ids unique |
| AccountFlows.RegisterThenVerify | backend/src/controllers/userController.ts:33-89 | the code sent at registration verifies the new user; a second verification is refused |
| AccountFlows.ResendThenVerify | backend/src/controllers/userController.ts:75-119 | after a resend the new code verifies an unverified user, and any other code is refused |
| AccountFlows.LoginThenRefresh | backend/src/controllers/userController.ts:139-182 | the refresh token a login stores is accepted by the refresh route |
| AccountFlows.LogoutThenRefreshRefused | backend/src/controllers/userController.ts:180-214 | after logout the presented refresh token is refused Forbidden |
| AccountFlows.ForgotThenReset | backend/src/controllers/userController.ts:242-290 | the issued reset token works at every instant before 15 minutes on, and at none after |
| AccountFlows.ResetOnlyOnce | backend/src/controllers/userController.ts:278-290 | after a successful reset the token is refused, whenever presented |
| LegacyAccounts.FindByEmail | backend/src/controllers/authController.ts:24 | a legacy user is found by e-mail exactly when the e-mail is taken |
| LegacyAccounts.FindById | backend/src/controllers/authController.ts:182 | a legacy user found by id, or none has it |
| LegacyAccounts.FindByRefreshToken | backend/src/controllers/authController.ts:215 | the holder of a refresh token, or none |
| LegacyAccounts.FindByResetToken | backend/src/controllers/authController.ts:300-303 | a legacy user with the token and a later deadline, or none |
| LegacyAccounts.RegisterPrecheck | backend/src/controllers/authController.ts:12-28 | a request passes exactly when complete, with matching passwords and an unused e-mail; otherwise 400 |
| LegacyAccounts.RegisterAsWritten | backend/src/controllers/authController.ts:10-61 | refusals as the precheck says; a request that passes is answered 500 with nothing saved |
| LegacyAccounts.RegisterAsWrittenNeverRegisters | backend/src/controllers/authController.ts:31-44 | no request ever adds a user |
| LegacyAccounts.Register | backend/src/controllers/authController.ts:10-61 | with the schema's field name and without the stray cookie, a request that passes is saved unverified and answered 201 |
| LegacyAccounts.VerifyCode | backend/src/controllers/authController.ts:64-88 | unknown 404, verified 400, wrong code 400; success sets `verificado` and clears the code |
| LegacyAccounts.ResendCode | backend/src/controllers/authController.ts:91-123 | the code is replaced; nothing else changes |
| LegacyAccounts.LoginLookup | backend/src/controllers/authController.ts:131-167 | an unknown e-mail is answered 400 (not 404); without a password nothing is written and `bcrypt.compare` fails into a plain reply; a success needs a password and keeps the number of users |
| LegacyAccounts.AfterHeadersSent | backend/src/controllers/authController.ts:131-167 | once headers are sent, a plain reply from the lookup is tried, then always the catch's 500; a success is never written, because `res.cookie` throws first |
| LegacyAccounts.LoginAsWritten | backend/src/controllers/authController.ts:126-168 | a missing field is answered 400, and the lookup still runs and changes the state; every later attempt ends in the catch's 500, and none is a success; complete requests get the lookup's single answer |
| LegacyAccounts.MissingEmailStillLogsIn | backend/src/controllers/authController.ts:126-151 | with no e-mail and the first user's password, the client is told 400, yet that user's refresh token is replaced |
| LegacyAccounts.Login | backend/src/controllers/authController.ts:126-168 | a missing field is answered 400 once; otherwise the lookup's single answer |
| LegacyAccounts.LoginAnswersTwice | backend/src/controllers/authController.ts:128-134 | a known e-mail without password gets two answers as written, one corrected |
| LegacyAccounts.LoginVersionsAgree | backend/src/controllers/authController.ts:126-168 | on complete requests both versions give the same single answer and state |
| LegacyAccounts.RefreshAsWritten | backend/src/controllers/authController.ts:171-205 | success exactly for a verifying token whose user holds it; every failure after the cookie check is 403 "Token inválido" |
| LegacyAccounts.RefreshVerified | backend/src/controllers/authController.ts:177-198 | after verification: a missing id 403, an unknown user or another token 403, else a new access token |
| LegacyAccounts.Refresh | backend/src/controllers/authController.ts:171-205 | reading the error's `name`, an expired token is answered "Token expirado." |
| LegacyAccounts.ExpiredRefreshMisreported | backend/src/controllers/authController.ts:199-203 | as written, an expired token gets "Token inválido"; the two versions differ only there |
| LegacyAccounts.Logout | backend/src/controllers/authController.ts:208-231 | the holder of the presented token loses it |
| LegacyAccounts.ForgotPassword | backend/src/controllers/authController.ts:234-283 | the digest becomes the reset token with a 15-minute deadline |
| LegacyAccounts.ResetPassword | backend/src/controllers/authController.ts:286-323 | no live matching token is an uncaught error; success re-hashes the password and clears token and deadline |
| LegacyFlows.FoundByEmailAt | backend/src/controllers/authController.ts:70 | a legacy user is found at its position when no earlier user has that e-mail |
| LegacyFlows.FoundByIdAt | backend/src/controllers/authController.ts:182 | under unique ids a legacy user is found by id at its position |
| LegacyFlows.UpdateKeepsUniqueIds | backend/src/controllers/authController.ts:221 | saving a legacy user keeps the ids unique |
| LegacyFlows.RegisterThenVerify | backend/src/controllers/authController.ts:10-88 | with the corrected `register`, the code sent verifies the new user once; a second try is refused as already verified |
| LegacyFlows.ResendThenVerify | backend/src/controllers/authController.ts:64-123 | after a resend the new code verifies an unverified user, and any other code is refused |
| LegacyFlows.LogoutThenRefreshRefused | backend/src/controllers/authController.ts:171-231 | after logout the presented refresh token gets 403 |
| LegacyFlows.ForgotThenReset | backend/src/controllers/authController.ts:234-323 | the stored reset token works exactly before 15 minutes on |
| LegacyFlows.ResetOnlyOnce | backend/src/controllers/authController.ts:286-323 | a used reset token is refused with a 500 |
| AuthStore.Step | frontend/src/store/authStore.ts:15-23 | `login` sets the flag, token and user as given; `logout` resets to the initial state; `setUser` and `setAccessToken` change only their own field |
| AuthStore.SignedInIffLoginSinceLogout | frontend/src/store/authStore.ts:19-22 | after any run, signed in exactly when some `login` is not followed by a `logout`, or with no `logout` when it started signed in |
| AuthStore.LogoutForgets | frontend/src/store/authStore.ts:20 | a run ending in `logout` is back at the initial state |
| AuthStore.SignedInWithoutToken | frontend/src/store/authStore.ts:19-22 | the flag survives `setAccessToken(null)` and `setUser(null)` |
| LinkForm.TogglePrivateSwitch | frontend/src/pages/ShortLinks.tsx:33-47 | ignored when signed out; otherwise flips private, and turning it on hides the password field |
| LinkForm.ToggleSenhaSwitch | frontend/src/pages/ShortLinks.tsx:49-57 | flips the password field, and turning it on switches private off |
| LinkForm.ClampDays | frontend/src/pages/ShortLinks.tsx:212-217 | the days typed, clamped to [0, 365], with unparsable input as 0 |
| LinkForm.DaysField | frontend/src/pages/ShortLinks.tsx:212-217 | the field written back parses to the clamped number |
| LinkForm.Apply | frontend/src/pages/ShortLinks.tsx:33-217 | every event keeps the switches exclusive and the days field a number from 0 to 365 |
| LinkForm.ReplayKeepsSane | frontend/src/pages/ShortLinks.tsx:33-217 | whatever the user does, the two switches are never both on and the days field stays in range |
| LinkForm.BuildPayload | frontend/src/pages/ShortLinks.tsx:79-85 | fields trimmed; `nome` empty and `privado` false unless signed in; `senha` empty unless the field is shown |
| LinkForm.SubmitAsWritten | frontend/src/pages/ShortLinks.tsx:68-94 | refused for a missing or unparsable URL, or a shown password under six UTF-16 code units before trimming; otherwise the payload |
| LinkForm.BlankPasswordPasses | frontend/src/pages/ShortLinks.tsx:74-85 | six spaces pass the check and are sent as an empty password |
| LinkForm.Submit | frontend/src/pages/ShortLinks.tsx:68-94 | the check measures the password that is sent, so a shown password is sent with a length of at least six |
| LinkForm.SubmitRefinesAsWritten | frontend/src/pages/ShortLinks.tsx:74-85 | what the corrected check accepts the written one accepts with the same body, and a shown password is never sent empty |
| LinkRouting.RedirectToLink | frontend/src/hooks/useLinks.ts:41-76 | the private flag is checked first (private route, error without a URL); then a password link asks for the password or goes to `/protected/<key>?senha=`; any other link goes to `/r/<key>` |
| CrossLayer.LifetimeOfField | backend/src/controllers/linkController.ts:71 | the lifetime of a form's days field is the number typed, or seven when it is empty or zero |
| CrossLayer.NumeralLifetime | backend/src/controllers/linkController.ts:71 | a numeral `n` means `n` days, zero means seven |
| CrossLayer.EmptyLifetime | backend/src/controllers/linkController.ts:71 | an empty field means seven days |
| CrossLayer.FormRequestPasses | backend/src/controllers/linkController.ts:25-67 | what the corrected form sends passes every server check, with a lifetime of one to 365 days |
| CrossLayer.PayloadPrecheck | backend/src/controllers/linkController.ts:25-53 | a body shaped like the form's passes the checks before the key loop |
| CrossLayer.FormLifetimeStorable | backend/src/controllers/linkController.ts:71-82 | with a clock between the epoch and a year before the end of the `Date` range, every lifetime the form allows is a valid date |
| CrossLayer.FormRequestCreated | backend/src/controllers/linkController.ts:16-104 | an accepted submission is created, private as asked, with a password exactly when the field was on |
| CrossLayer.ValidRequestCreated | backend/src/controllers/linkController.ts:16-104 | a request that passes every check under a fresh key is created with the cast privacy, and with a password exactly when one was sent |
| CrossLayer.BlankPasswordCreatesOpenLink | frontend/src/pages/ShortLinks.tsx:74-85 | six spaces typed as a password create a link with none |
| CrossLayer.OpenRequestCreatesOpenLink | backend/src/controllers/linkController.ts:60-69 | a valid request without a password creates a link without one |
| CrossLayer.ResolvableExactlyDuringLifetime | backend/src/controllers/linkController.ts:71-118 | a created link resolves, for a caller it admits, exactly until `now + 86400 * days` seconds, that instant included, and is NotFound after it; that instant is the stored expiry |
| CrossLayer.CreatedResolvesUntilEnd | backend/src/controllers/linkController.ts:96-169 | the same for any state a creation produced |
| CrossLayer.ResolveEntry | backend/src/controllers/linkController.ts:115-169 | a key cached until `end` is decided up to `end` and NotFound after |
| CrossLayer.RoutingReachesDestination | frontend/src/hooks/useLinks.ts:41-76 | the client's choice for a live link reaches the route that opens it: public links redirect, password links go to the protected route exactly when a password is given, and redirect on the right password when it has no `+`, `&`, `#` or `%`; private links open exactly for the owner |
| CrossLayer.HandshakeNeverFindsCreatedLink | backend/src/controllers/handshakeController.ts:28-30 | after any creation over a collection without tokens, a handshake request that misses the cache is answered 404 "Link não encontrado" with nothing changed |

## Left out

- I/O is not modelled: MongoDB, Redis, RabbitMQ, the e-mail queue and e-mail sending. The collection and cache are in-memory values, and e-mail is an ignored effect.
- bcrypt, `jsonwebtoken`, `crypto.randomBytes`, `crypto.createHash` and `new URL(...)` are foreign code. They are oracles or parameters: `Env.hash`, `Env.matches`, `Env.sign`, `Env.verify`, `Env.validUrl`, the random bytes, and the reset digest.
- JWT expiry (24 h, 1 h, 30 d) is inside the verification oracle. The legacy `RefreshAsWritten`/`Refresh` take whether the token has expired as a parameter.
- `hashPassword`, `comparePassword`, `sendErrorResponse`, `sendSuccessResponse` and `redisClient` in helpers.ts are thin wrappers over foreign code or the response object. They are represented by the oracles and the `Response` datatype.
- `handshakePage` renders HTML, which is not modelled.
- `formatarExpiracao` and the other presentation parts of ShortLinks.tsx are not modelled.
- JSON serialisation is not modelled. A cache value is a link view or a bare string, and escaping and the ISO date format are left out.
- Route wiring (app.ts, routes/*.ts) is not modelled. Both generations of controllers and middleware are modelled as functions.
- BadRequestError, NotFoundError and CustomError are not part of this model. Their statuses are taken as 400 and 404 from their names.
- Analytics recording and one-time handshake consumption are not modelled, because no code shown implements them. The handshake never reads or writes `handshake_usado`.
- Concurrency between requests is not modelled. Every request is one sequential state transition.
- The debug key dumps (redisController.ts, cache.ts) and the commented-out link handlers are not modelled.
- LinkCreate.FreshKeyIndex: the source draws keys until one is fresh. The model draws from a finite sequence, and a sequence in which every draw collides leaves the request `Unanswered`.
- AppState.PushLink: the source pushes the new document's `_id`. The model has no `_id` for links and pushes the link's key, which is unique just as `_id` is.
- Cookie options are not modelled: `path`, `httpOnly`, `secure`, `sameSite`. A `SetCookie` keeps only the name, the value and `maxAge`. This holds for the handshake and account cookies alike.
- A JSON number is modelled as an integer (`LinkModel.JsonValue`). A fractional `privado` such as 0.5 is truthy and fails Mongoose's cast, and the model cannot state that.
- LinkModel.CastBoolean: the cast follows Mongoose's default true and false value lists. The Mongoose version is not part of this model.
- Request bodies and cookies: every field except `privado` is modelled as a string or absent (`LinkCreate.ShortenRequest`, `Accounts.RegisterRequest`, and the login, legacy and cookie inputs). A JSON number as `senha` has no `length`, so `undefined < 6` lets it past the length check and `bcrypt.hash` then throws; an object as `email`, such as `{"$ne": null}`, reaches `findOne` as a query operator and matches the first user. The model states neither.
- CrossLayer.RoutingReachesDestination: the clause that the right password redirects is stated only for passwords without `+`, `&`, `#` or `%`, because the client puts `senha` into the query unencoded and Express's query parsing is not modelled.
- CrossLayer.FormRequestCreated: it assumes the server clock lies between the epoch and a year before the end of the `Date` range, so that every lifetime the form allows is a valid date.
- LinkCreate.NewLink: `setDate(getDate() + dias)` is calendar arithmetic. It is modelled as `days * 86400000` ms from the instant of creation, so daylight-saving shifts are not represented.
- LinkResolve.RedirectToLinks: the unparsable bare-string cache value (`JSON.parse` throwing) is modelled only as an uncaught error. The same holds for LinkProtected.RedirectProtected and LinkPrivate.RedirectPrivate.
- AuthMiddleware.Authenticate: the 500 branch of `authenticateToken`'s catch is unreachable, because `verifyTokenAndGetUser` catches everything. It is not modelled.
- Handshake.VerifyToken: it reads a list of handshake records that no operation of the source creates. It is the corrected lookup, and `Handshake.VerifyTokenAsWritten` is the code as written.
- Handshake.VerifyTokenAsWritten: it follows three library behaviours. With `strictQuery` on, Mongoose drops unknown filter fields; with it off, it passes them on. ioredis stores `undefined` as "". Express writes the `Location` of `res.redirect(undefined)` as "undefined". The library versions are not part of this model, so the filter mode is a parameter; with `strictQuery` on only `shortUrl` is dropped, since the schema declares `token`. The natural order of the collection is a parameter too. A body without `short_id` or `token` is not modelled.
- LegacyAccounts.LoginLookup: Mongoose drops an `undefined` filter, so `findOne({ email: undefined })` returns the first user. The model takes the first legacy user in that case.
- LinkRouting.RedirectToLink: the axios calls and browser navigation are inputs and outputs. The check answer, the private answer and the route are values. The `senha` query parameter is not URL-encoded in the source, and the model does not parse query strings.
- The date arithmetic of `resetPasswordExpires` is modelled in milliseconds, like every other instant.

## Findings

| source | as written | input that shows it | evidently intended | confidence | as-written member | corrected member |
|---|---|---|---|---|---|---|
| backend/src/controllers/authController.ts:31-44 | register builds the user with `nome`, but the legacy schema requires `name`; the cookie line also passes `refreshToken`, which there names the exported handler of line 171, so the cookie would hold that function's text | any complete register request with an unused e-mail: the save fails and the answer is 500 | a request that passes validation is saved and answered 201 | high (not executed) | LegacyAccounts.RegisterAsWrittenNeverRegisters | LegacyAccounts.Register |
| backend/src/controllers/authController.ts:128-130 | login sends 400 for a missing field but does not return | `{ email: "a@b.c" }` with no password, for a stored e-mail: 400 followed by a second answer | answer 400 once and stop | high (not executed) | LegacyAccounts.LoginAnswersTwice | LegacyAccounts.Login |
| backend/src/controllers/authController.ts:200 | the catch tests `error.nome` instead of `error.name` | an expired refresh token: "Token inválido." instead of "Token expirado." | an expired token is reported as expired | high (not executed) | LegacyAccounts.ExpiredRefreshMisreported | LegacyAccounts.Refresh |
| frontend/src/pages/ShortLinks.tsx:74-85 | the password length is checked before trimming, but the password is sent trimmed | a shown password of six spaces: the server gets `senha: ""` and creates the link with no password | the sent password has at least six characters | high (not executed) | CrossLayer.BlankPasswordCreatesOpenLink | LinkForm.Submit |
| backend/src/controllers/linkController.ts:75-94 | the document stores Mongoose's cast of `privado`, but the cached JSON stores `!!privado` | a signed-in request with `privado: "false"` (or "0", or "no") and no password: the link is stored public, while the cached copy every resolver reads says private | the cache entry mirrors the stored document | medium (not executed) | LinkCreate.FalseWordCachedAsPrivate | LinkCreate.Shorten |
| backend/src/controllers/handshakeController.ts:28-38 | the lookup runs on the link collection, by `shortUrl` and `token`, and then reads `expiresAt` and `originalUrl`; the schema declares only `token`, and no code sets it | any request that misses the cache is answered 404 whatever Mongoose does with unknown filter fields, because no created link carries a `token`; a link that did carry it would be opened to "undefined" | look up the handshake record for the pair, refuse it once expired, and redirect to its URL | high (not executed) | Handshake.AsWrittenNeverExpiresNorOpens | Handshake.VerifyToken |
