/**
 * Token issuance (backend/src/services/token.service.ts). A signed JWT (RFC 7519)
 * is modelled as its claims set together with the key it was signed with; the
 * cryptography itself is not modelled. Times: `now` is the clock in milliseconds,
 * JWT `iat`/`exp` are NumericDate seconds (section 2 of RFC 7519), as the signing
 * library computes them.
 */
module TokenService {
  import opened Wrappers
  import opened AppErrors

  /** expiresIn '1h' */
  const AccessTokenTtl: int := 60 * 60
  /** expiresIn '30d' */
  const RefreshTokenTtl: int := 30 * 24 * 60 * 60
  /** 30 * 24 * 60 * 60 * 1000 ms, the persisted session lifetime (and the cookie max-age) */
  const RefreshSessionTtlMs: int := 30 * 24 * 60 * 60 * 1000

  /** The claims set of a JWT: the custom payload, the registered `sub` (section 4.1.2),
      `jti` (section 4.1.7), `iat` (section 4.1.6) and `exp` (section 4.1.4) claims. */
  datatype Claims = Claims(
    custom: map<string, string>,
    sub: Option<string>,
    jti: Option<string>,
    iat: int,
    exp: int)

  /** A signed token: its claims and the secret that signed it. */
  datatype Jwt = Jwt(claims: Claims, key: string)

  /** What `generateJwtRefreshToken` returns. */
  datatype RefreshIssue = RefreshIssue(refreshToken: Jwt, jti: string, expiresAt: int)

  /** What `jwt.verify` yields: the decoded claims, or a thrown error known by its name. */
  datatype Decoded = Verified(claims: Claims) | VerifyFailed(name: string)

  /** The issued-at time the signing library stamps: whole seconds of the clock. */
  function IssuedAt(now: nat): nat { now / 1000 }

  /** A token is accepted when it was signed with `key` and `nowSec` is before its `exp`. */
  predicate Accepts(t: Jwt, key: string, nowSec: int) {
    key != "" && t.key == key && nowSec < t.claims.exp
  }

  /** `generateJwtAccessToken`: throws when the secret is unset or empty; otherwise a token
      whose only custom claim is `userId`, expiring one hour after it was issued. */
  function GenerateJwtAccessToken(secret: string, userId: string, now: nat): (r: Result<Jwt, Thrown>)
    ensures r.Failure? <==> secret == ""
    ensures r.Failure? ==> r.error.Other?
    ensures r.Success? ==> (
      && r.value.key == secret
      && r.value.claims.custom == map["userId" := userId]
      && r.value.claims.sub == None && r.value.claims.jti == None
      && r.value.claims.exp - r.value.claims.iat == AccessTokenTtl
      && r.value.claims.iat * 1000 <= now < r.value.claims.iat * 1000 + 1000)
  {
    if secret == "" then
      Failure(Other("Error", "JWT_SECRET is not defined in environment variables"))
    else
      var iat := IssuedAt(now);
      Success(Jwt(Claims(map["userId" := userId], None, None, iat, iat + AccessTokenTtl), secret))
  }

  /** `generateJwtRefreshToken`: throws when the secret is unset or empty, before drawing
      anything; otherwise the drawn UUID becomes the `jti`, the user the `sub`, there is
      no custom claim, and the session expires 30 days (in ms) after `now`. */
  function GenerateJwtRefreshToken(secret: string, userId: string, uuid: string, now: nat)
    : (r: Result<RefreshIssue, Thrown>)
    ensures r.Failure? <==> secret == ""
    ensures r.Failure? ==> r.error.Other?
    ensures r.Success? ==> (
      && r.value.jti == uuid
      && r.value.expiresAt == now + RefreshSessionTtlMs
      && r.value.refreshToken.key == secret
      && r.value.refreshToken.claims.custom == map[]
      && r.value.refreshToken.claims.sub == Some(userId)
      && r.value.refreshToken.claims.jti == Some(r.value.jti)
      && r.value.refreshToken.claims.exp - r.value.refreshToken.claims.iat == RefreshTokenTtl)
  {
    if secret == "" then
      Failure(Other("Error", "JWT_SECRET is not defined"))
    else
      var iat := IssuedAt(now);
      var token := Jwt(Claims(map[], Some(userId), Some(uuid), iat, iat + RefreshTokenTtl), secret);
      Success(RefreshIssue(token, uuid, now + RefreshSessionTtlMs))
  }

  /** An access token is accepted, with its own key, at every instant less than 3599 s
      after issue, and at no instant 3600 s or more after issue. */
  lemma AccessTokenLifetime(secret: string, userId: string, now: nat, later: nat)
    requires secret != ""
    ensures var t := GenerateJwtAccessToken(secret, userId, now).value;
      && (now <= later < now + (AccessTokenTtl - 1) * 1000 ==> Accepts(t, secret, IssuedAt(later)))
      && (now + AccessTokenTtl * 1000 <= later ==> !Accepts(t, secret, IssuedAt(later)))
      && t.claims.custom["userId"] == userId
  {
    var t := GenerateJwtAccessToken(secret, userId, now).value;
    var q := now / 1000;
    assert t.claims.exp == q + AccessTokenTtl;
    assert q * 1000 <= now < q * 1000 + 1000;
    if now <= later < now + (AccessTokenTtl - 1) * 1000 {
      assert later < (q + AccessTokenTtl) * 1000;
      DivBelow(later, q + AccessTokenTtl);
    }
    if now + AccessTokenTtl * 1000 <= later {
      assert (q + AccessTokenTtl) * 1000 <= later;
      DivAtLeast(later, q + AccessTokenTtl);
    }
  }

  /** The refresh token's own `exp` never falls after the persisted session's `expiresAt`,
      and, with `now` standing for both the signing clock and the `expiresAt` clock, falls
      less than one second before it: once the session row has expired the token itself
      is past its `exp`. */
  lemma RefreshTokenExpiresWithSession(secret: string, userId: string, uuid: string, now: nat)
    requires secret != ""
    ensures var issue := GenerateJwtRefreshToken(secret, userId, uuid, now).value;
      issue.refreshToken.claims.exp * 1000 <= issue.expiresAt < issue.refreshToken.claims.exp * 1000 + 1000
  {
    var q := now / 1000;
    assert q * 1000 <= now < q * 1000 + 1000;
  }

  lemma DivBelow(x: nat, k: int)
    requires x < k * 1000
    ensures x / 1000 < k
  {
  }

  lemma DivBelowInverse(x: nat, k: int)
    requires x / 1000 < k
    ensures x < k * 1000
  {
  }

  lemma DivAtLeast(x: nat, k: int)
    requires k * 1000 <= x
    ensures k <= x / 1000
  {
  }
}
