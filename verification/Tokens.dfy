/**
 * Refresh tokens as the service sees them: what signing puts in one, and what verifying one checks.
 * A signature is represented by the secret it was made with, and SHA-256 by a constructor, so that
 * equal digests mean equal tokens.
 */
module Tokens {
  import opened Wrappers

  // A UUID is a 128-bit value; only equality, order and freshness are ever used.
  type Uuid = nat

  // Milliseconds since the epoch, as Date.now() reports them.
  type Millis = nat

  datatype Payload = Payload(
    sub: Uuid,
    tenantId: Uuid,
    tokenType: Option<string>,
    jti: Uuid,
    exp: Option<nat> // seconds
  )

  datatype RawToken =
    | Malformed(text: string)
    | Jwt(payload: Payload, signedWith: string)

  datatype TokenHash = Sha256(raw: RawToken)

  /** JWT_REFRESH_SECRET, and JWT_REFRESH_EXPIRES_IN in seconds. */
  datatype Config = Config(refreshSecret: string, lifetime: nat)

  const REFRESH: string := "refresh"

  /** jsonwebtoken compares whole seconds: the token is dead once floor(now / 1000) reaches exp. */
  predicate ExpClaimPassed(exp: Option<nat>, now: Millis) {
    exp.Some? && now / 1000 >= exp.value
  }

  function TryVerify(cfg: Config, raw: RawToken, now: Millis): Option<Payload> {
    match raw
    case Malformed(_) => None
    case Jwt(payload, secret) =>
      if secret != cfg.refreshSecret || ExpClaimPassed(payload.exp, now) then None
      else if payload.tokenType == Some(REFRESH) then Some(payload)
      else None
  }

  /** jwt.signAsync with expiresIn: iat is the current second and exp is iat plus the lifetime. */
  function Sign(cfg: Config, user: Uuid, tenant: Uuid, jti: Uuid, now: Millis): RawToken {
    Jwt(Payload(user, tenant, Some(REFRESH), jti, Some(now / 1000 + cfg.lifetime)), cfg.refreshSecret)
  }

  /** expiresAtOf: the exp claim in milliseconds; the source throws when it is missing or zero. */
  function ExpiresAtOf(raw: RawToken): Option<Millis> {
    if raw.Jwt? && raw.payload.exp.Some? && raw.payload.exp.value != 0
    then Some(raw.payload.exp.value * 1000)
    else None
  }

  /**
   * The two expiry tests agree to the millisecond: the exp claim, compared in whole seconds as
   * section 4.1.4 of RFC 7519 asks, has passed exactly when the stored expiresAt is not after now.
   */
  lemma ExpiryTestsAgree(raw: RawToken, now: Millis)
    requires ExpiresAtOf(raw).Some?
    ensures ExpClaimPassed(raw.payload.exp, now) <==> ExpiresAtOf(raw).value <= now
  {
    var exp := raw.payload.exp.value;
    assert now == now / 1000 * 1000 + now % 1000;
    if now / 1000 >= exp {
      assert exp * 1000 <= now;
    } else {
      assert now < exp * 1000;
    }
  }

  /**
   * A token verifies exactly when it was signed with the refresh secret, is a refresh token, and the
   * millisecond its exp names has not been reached; the payload is the one signed.
   */
  lemma VerifiesIff(cfg: Config, raw: RawToken, now: Millis, payload: Payload)
    ensures TryVerify(cfg, raw, now) == Some(payload) <==>
        (raw == Jwt(payload, cfg.refreshSecret) && payload.tokenType == Some("refresh") &&
         (payload.exp.None? || now < payload.exp.value * 1000))
  {
    if payload.exp.Some? {
      assert now == now / 1000 * 1000 + now % 1000;
    }
  }

  /** A signed token verifies, to the user and tenant it was signed for, for its lifetime and no longer. */
  lemma SignedVerifiesUntil(cfg: Config, user: Uuid, tenant: Uuid, jti: Uuid, at: Millis, now: Millis)
    ensures
      var exp := at / 1000 + cfg.lifetime;
      TryVerify(cfg, Sign(cfg, user, tenant, jti, at), now) ==
        if now < exp * 1000 then Some(Payload(user, tenant, Some("refresh"), jti, Some(exp))) else None
  {
    var payload := Payload(user, tenant, Some("refresh"), jti, Some(at / 1000 + cfg.lifetime));
    VerifiesIff(cfg, Sign(cfg, user, tenant, jti, at), now, payload);
    var found := TryVerify(cfg, Sign(cfg, user, tenant, jti, at), now);
    if found.Some? {
      VerifiesIff(cfg, Sign(cfg, user, tenant, jti, at), now, found.value);
    }
  }
}
