/**
 * The foreign primitives the server calls but this model does not open up:
 * WHATWG URL parsing (section 4.4 "URL parsing" of the URL Standard), bcrypt
 * hashing and comparison, and JSON Web Token signing and verification. Each
 * is an uninterpreted function supplied with the request; nothing is assumed
 * about them except where a lemma states it as a hypothesis.
 */
module Oracles {
  import opened Wrappers

  /** The three signing secrets: JWT_SECRET, ACCESS_SECRET and REFRESH_SECRET. */
  datatype Secret = JwtSecret | AccessSecret | RefreshSecret

  /** The claims of a token that verified; `userId` may be absent from them. */
  datatype Claims = Claims(userId: Option<string>)

  datatype Env = Env(
    /** `new URL(s)` returns instead of throwing. */
    validUrl: string -> bool,
    /** `bcrypt.hash(plain, rounds)`. */
    hash: string -> string,
    /** `bcrypt.compare(plain, hash)`. */
    matches: (string, string) -> bool,
    /** `jwt.sign({ userId }, secret)` issued at the given instant. */
    sign: (Secret, string, int) -> string,
    /** `jwt.verify(token, secret)`; `None` is the exception it throws. */
    verify: (Secret, string) -> Option<Claims>
  )
}
