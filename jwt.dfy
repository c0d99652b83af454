/**
 * The claims of the app's JSON Web Token. Reading the key, parsing it and the
 * RS256 signature are left to an oracle (`Signer`).
 */
module Jwt {
  import opened Wrappers

  /** `time.Second`, `time.Minute`: durations in nanoseconds. */
  const Second: int := 1_000_000_000
  const Minute: int := 60 * Second

  /** How long the JWT is valid: ten minutes, GitHub's maximum. */
  const Lifetime: int := 10 * Minute

  /** `jwt.StandardClaims` with the three fields set: `iss`, `iat`, `exp`. */
  datatype Claims = Claims(issuer: string, issuedAt: int, expiresAt: int)

  /**
   * Reads the key file at the given path, parses it as a PEM RSA private key
   * and signs the claims with RS256, or reports why one of these steps failed.
   */
  type Signer = (string, Claims) -> Result<string, string>

  /** `t.Unix()` for an instant `t` given in nanoseconds since the Unix epoch. */
  function UnixSeconds(t: int): int {
    t / Second
  }

  /**
   * The claims `getJwtToken` builds at instant `now` (nanoseconds since the
   * epoch): issued by the app, at the current whole second, expiring exactly
   * 600 seconds later.
   */
  function NewClaims(appId: string, now: int): (c: Claims)
    ensures c.issuer == appId
    ensures c.issuedAt * Second <= now < (c.issuedAt + 1) * Second
    ensures c.expiresAt - c.issuedAt == 600
  {
    Claims(appId, UnixSeconds(now), UnixSeconds(now + Lifetime))
  }

  /** `getJwtToken(appID, keyPath)` at instant `now`. */
  function GetJwtToken(appId: string, keyPath: string, now: int, sign: Signer): Result<string, string> {
    sign(keyPath, NewClaims(appId, now))
  }
}
