/** The JSON web tokens signin issues and the session gate checks: the
    claims they carry and the signing library, kept abstract. */
module Tokens {
  import opened Wrappers
  import opened Payload
  import opened Users

  /** `expiresIn: "24h"`, in seconds. */
  const TokenLifetime: nat := 24 * 60 * 60

  /** The payload signin signs. */
  datatype Claims = Claims(userId: UserId, username: Field, email: Field, role: Field)

  /** `jsonwebtoken` with the server's secret: `sign(claims, lifetime)` gives
      the token text, and `verify(token)` gives the claims back, or `None`
      where the library throws (bad signature, expired, malformed). */
  datatype Jwt = Jwt(sign: (Claims, nat) -> string, verify: string -> Option<Claims>)

  /** The claims signin puts in a token for a stored user. */
  function ClaimsOf(r: UserRecord): Claims
  {
    Claims(r.id, r.username, r.email, r.role)
  }

  /** A library that reads back what it signed, for a token verified at the
      instant it was signed (the model has no clock, so expiry is not
      covered). */
  ghost predicate ReadsBackOwnTokens(jwt: Jwt)
  {
    forall c: Claims, lifetime: nat ::
      jwt.verify(jwt.sign(c, lifetime)) == Some(c)
  }
}
