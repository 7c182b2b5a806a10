/**
 * The signed token the two filters exchange, with signing and parsing kept
 * abstract: a codec is any pair of functions, and a sound one parses back
 * exactly what it signed under the same key.
 */
module Jwt {
  import opened Wrappers

  /** A claim value as `claims.get(name, String.class)` sees it: a string, or something of another type. */
  datatype ClaimValue = Text(s: string) | NonText

  /** The payload: registered claims, private claims by name, and the two dates in whole seconds. */
  datatype Jws = Jws(issuer: string, subject: string, claims: map<string, ClaimValue>, issuedAt: int, expiration: int)

  /** Compact signing and verified parsing under a key; `parse` answers `None` for anything it rejects. */
  datatype JwtCodec = JwtCodec(sign: (string, Jws) -> string, parse: (string, string) -> Option<Jws>)

  ghost predicate Sound(codec: JwtCodec) {
    forall key, jws :: codec.parse(key, codec.sign(key, jws)) == Some(jws)
  }

  /**
   * The compact serialisation (section 7.1 of RFC 7515) is three base64url
   * segments joined by periods, so a text holding a space is never a token:
   * the parser rejects it.
   */
  ghost predicate RejectsSpaces(codec: JwtCodec) {
    forall key, s :: ' ' in s ==> codec.parse(key, s).None?
  }

  /** `SecurityConstants`: the signing key text and the name of the token header. */
  datatype SecurityConstants = SecurityConstants(jwtKey: string, jwtHeader: string)

  /** Both filters derive their signing key from the same constant. */
  function SigningKey(constants: SecurityConstants): string {
    constants.jwtKey
  }

  /** The one servlet path on which a token is issued and not validated. */
  const LOGIN_PATH := "/api/auth/login"
  const USERNAME_CLAIM := "username"
  const AUTHORITIES_CLAIM := "authorities"

  /** `java.util.Date` to a JWT NumericDate: whole seconds, the milliseconds dropped. */
  function NumericDate(millis: nat): (seconds: nat)
    ensures seconds * 1000 <= millis < seconds * 1000 + 1000
  {
    millis / 1000
  }
}
