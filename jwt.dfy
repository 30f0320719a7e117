/**
 * JSON Web Tokens (RFC 7519) as the jsonwebtoken library issues and checks them, kept
 * abstract: `sign` serializes and signs a claims set under the server's secret, `verify`
 * checks a compact token at a given time (seconds since the epoch). What the model relies
 * on is stated once, as the predicate `Sound`.
 */
module Jwt {

  /** `expiresIn: '432000s'` at login: five days. */
  const ExpiresIn: int := 432000

  /** The message jsonwebtoken gives to a token whose `exp` has been reached. */
  const ExpiredMessage: string := "jwt expired"

  /** The payload login signs: `{ email, role }` plus the `iat` and `exp` claims the library adds. */
  datatype Claims = Claims(email: string, role: string, iat: int, exp: int)

  /** `jwt.verify` either returns the decoded claims or throws an error with a message. */
  datatype Verdict = Verified(claims: Claims) | Invalid(message: string)

  /** The signing secret lives inside these two functions. */
  datatype Signer = Signer(sign: Claims -> string, verify: (string, int) -> Verdict)

  /** The claims login signs at time `now`. */
  function LoginClaims(email: string, role: string, now: int): (c: Claims)
    ensures c.email == email && c.role == role
    ensures c.exp - c.iat == ExpiresIn && c.iat == now
  {
    Claims(email, role, now, now + ExpiresIn)
  }

  /**
   * A signed token is a non-empty compact serialization (base64url segments joined by '.',
   * so it holds no space); verifying it gives back the claims while the time is before `exp`
   * (section 4.1.4 of RFC 7519) and the expiry error from then on.
   */
  ghost predicate Sound(s: Signer) {
    && (forall c :: s.sign(c) != [] && ' ' !in s.sign(c))
    && (forall c: Claims, now: int :: now < c.exp ==> s.verify(s.sign(c), now) == Verified(c))
    && (forall c: Claims, now: int :: c.exp <= now ==> s.verify(s.sign(c), now) == Invalid(ExpiredMessage))
  }

  /** A token login issued at `now` verifies for exactly the next `ExpiresIn` seconds. */
  lemma LoginTokenLifetime(s: Signer, email: string, role: string, now: int, later: int)
    requires Sound(s) && now <= later
    ensures s.verify(s.sign(LoginClaims(email, role, now)), later)
            == if later < now + ExpiresIn then Verified(Claims(email, role, now, now + ExpiresIn))
               else Invalid(ExpiredMessage)
  {
  }
}
