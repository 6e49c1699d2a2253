/**
 * The token half of src/configs/session/jwtService.ts: signing and verifying
 * access and refresh tokens (JSON Web Tokens, RFC 7519, signed with HMAC
 * SHA-256 by `jsonwebtoken`).
 *
 * Signatures are ideal: a token string parses to the claims it carries and the
 * key whose signature it bears, and a faithful codec parses every token it
 * serialized back to exactly that. No real cryptography is modelled.
 */
module Jwt {
  import opened Wrappers

  const Issuer: string := "talendy-backend"
  const Audience: string := "talendy-client"

  /** `ACCESS_TOKEN_EXPIRY = '15m'` and `REFRESH_TOKEN_EXPIRY = '365d'`, in seconds. */
  const AccessTtlSeconds: int := 15 * 60
  const RefreshTtlSeconds: int := 365 * 24 * 60 * 60

  const DefaultAccessSecret: string := "access_secret_key_change_in_production"
  const DefaultRefreshSecret: string := "refresh_secret_key_change_in_production"

  /** The application claims; `typ` is the `type` claim, any string a signer put there. */
  datatype Payload = Payload(userId: string, email: string, sessionId: string, typ: string)

  /** Registered claims added by `jsonwebtoken`: issuer, audience, issued-at and expiry in whole seconds. */
  datatype Claims = Claims(payload: Payload, iss: string, aud: string, iat: int, exp: int)

  /** A parsed token: its claims and the secret its signature was made with. */
  datatype SignedToken = SignedToken(claims: Claims, key: string)

  /** Compact serialization and parsing (with signature recovery) of tokens. */
  datatype Codec = Codec(serialize: SignedToken -> string, parse: string -> Option<SignedToken>)

  /**
   * Parsing a serialized token gives it back, and a serialized token is never
   * empty (a compact JWT has three dot-separated parts).
   */
  ghost predicate Faithful(c: Codec) {
    forall t: SignedToken :: c.parse(c.serialize(t)) == Some(t) && c.serialize(t) != ""
  }

  /** The two secrets: `process.env.X || default`, so an unset or empty variable falls back. */
  datatype Secrets = Secrets(access: string, refresh: string)

  function SecretsFromEnv(envAccess: Option<string>, envRefresh: Option<string>): (s: Secrets)
    ensures envAccess.Some? && envAccess.value != "" ==> s.access == envAccess.value
    ensures envAccess.None? || envAccess.value == "" ==> s.access == DefaultAccessSecret
    ensures envRefresh.Some? && envRefresh.value != "" ==> s.refresh == envRefresh.value
    ensures envRefresh.None? || envRefresh.value == "" ==> s.refresh == DefaultRefreshSecret
  {
    Secrets(
      if envAccess.Some? && envAccess.value != "" then envAccess.value else DefaultAccessSecret,
      if envRefresh.Some? && envRefresh.value != "" then envRefresh.value else DefaultRefreshSecret)
  }

  /** Everything token handling depends on. */
  datatype Signer = Signer(codec: Codec, secrets: Secrets)

  /** Whole seconds since the epoch, as `jsonwebtoken` computes `iat` and compares `exp`. */
  function Seconds(nowMs: int): int {
    nowMs / 1000
  }

  /** `jwt.sign(payload, key, { expiresIn, issuer, audience })`. */
  function Sign(codec: Codec, payload: Payload, key: string, ttlSeconds: int, now: int): (t: string)
    ensures Faithful(codec) ==> t != ""
    ensures Faithful(codec) ==>
      codec.parse(t) == Some(SignedToken(Claims(payload, Issuer, Audience, Seconds(now), Seconds(now) + ttlSeconds), key))
  {
    codec.serialize(SignedToken(Claims(payload, Issuer, Audience, Seconds(now), Seconds(now) + ttlSeconds), key))
  }

  /**
   * `jwt.verify(token, key, { issuer, audience })`: the token must parse, carry
   * a signature made with `key`, name the expected issuer and audience, and not
   * be expired (it expires once the current second reaches `exp`).
   */
  function Verify(codec: Codec, token: string, key: string, now: int): (r: Option<Payload>)
    ensures r.Some? <==>
      && codec.parse(token).Some?
      && codec.parse(token).value.key == key
      && codec.parse(token).value.claims.iss == Issuer
      && codec.parse(token).value.claims.aud == Audience
      && Seconds(now) < codec.parse(token).value.claims.exp
    ensures r.Some? ==> r.value == codec.parse(token).value.claims.payload
  {
    match codec.parse(token)
    case None => None
    case Some(t) =>
      if t.key == key && t.claims.iss == Issuer && t.claims.aud == Audience && Seconds(now) < t.claims.exp
      then Some(t.claims.payload)
      else None
  }

  datatype TokenPair = TokenPair(accessToken: string, refreshToken: string, expiresIn: int, refreshExpiresIn: int)

  /** `generateTokenPair(userId, email, sessionId)` at time `now`. */
  function GenerateTokenPair(s: Signer, userId: string, email: string, sessionId: string, now: int): (p: TokenPair)
    ensures p.expiresIn == 900 && p.refreshExpiresIn == 31536000
  {
    TokenPair(
      Sign(s.codec, Payload(userId, email, sessionId, "access"), s.secrets.access, AccessTtlSeconds, now),
      Sign(s.codec, Payload(userId, email, sessionId, "refresh"), s.secrets.refresh, RefreshTtlSeconds, now),
      15 * 60,
      365 * 24 * 60 * 60)
  }

  /** `verifyAccessToken`: null on any verification failure and on any `type` other than 'access'. */
  function VerifyAccessToken(s: Signer, token: string, now: int): (r: Option<Payload>)
    ensures r.Some? ==> r.value.typ == "access"
    ensures r.Some? <==> Verify(s.codec, token, s.secrets.access, now).Some?
                          && Verify(s.codec, token, s.secrets.access, now).value.typ == "access"
    ensures r.Some? ==> s.codec.parse(token).Some? && r.value == s.codec.parse(token).value.claims.payload
  {
    var decoded := Verify(s.codec, token, s.secrets.access, now);
    if decoded.Some? && decoded.value.typ == "access" then decoded else None
  }

  /** `verifyRefreshToken`: the same with the refresh secret and type 'refresh'. */
  function VerifyRefreshToken(s: Signer, token: string, now: int): (r: Option<Payload>)
    ensures r.Some? ==> r.value.typ == "refresh"
    ensures r.Some? <==> Verify(s.codec, token, s.secrets.refresh, now).Some?
                          && Verify(s.codec, token, s.secrets.refresh, now).value.typ == "refresh"
    ensures r.Some? ==> s.codec.parse(token).Some? && r.value == s.codec.parse(token).value.claims.payload
  {
    var decoded := Verify(s.codec, token, s.secrets.refresh, now);
    if decoded.Some? && decoded.value.typ == "refresh" then decoded else None
  }

  /** Both tokens of a pair carry the same user, email and session, with types 'access' and 'refresh'. */
  lemma PairPayloads(s: Signer, u: string, e: string, sid: string, now: int)
    requires Faithful(s.codec)
    ensures var p := GenerateTokenPair(s, u, e, sid, now);
      && s.codec.parse(p.accessToken).Some?
      && s.codec.parse(p.accessToken).value.claims.payload == Payload(u, e, sid, "access")
      && s.codec.parse(p.accessToken).value.key == s.secrets.access
      && s.codec.parse(p.refreshToken).Some?
      && s.codec.parse(p.refreshToken).value.claims.payload == Payload(u, e, sid, "refresh")
      && s.codec.parse(p.refreshToken).value.key == s.secrets.refresh
  {
  }

  /** Round trip: before its fifteen minutes are up, the access token verifies to what was issued. */
  lemma AccessRoundTrip(s: Signer, u: string, e: string, sid: string, issuedAt: int, now: int)
    requires Faithful(s.codec)
    requires Seconds(now) < Seconds(issuedAt) + AccessTtlSeconds
    ensures VerifyAccessToken(s, GenerateTokenPair(s, u, e, sid, issuedAt).accessToken, now)
            == Some(Payload(u, e, sid, "access"))
  {
  }

  /** Likewise the refresh token within its 365 days. */
  lemma RefreshRoundTrip(s: Signer, u: string, e: string, sid: string, issuedAt: int, now: int)
    requires Faithful(s.codec)
    requires Seconds(now) < Seconds(issuedAt) + RefreshTtlSeconds
    ensures VerifyRefreshToken(s, GenerateTokenPair(s, u, e, sid, issuedAt).refreshToken, now)
            == Some(Payload(u, e, sid, "refresh"))
  {
  }

  /** From the fifteenth minute on, the access token no longer verifies. */
  lemma AccessTokenExpires(s: Signer, u: string, e: string, sid: string, issuedAt: int, now: int)
    requires Faithful(s.codec)
    requires Seconds(now) >= Seconds(issuedAt) + AccessTtlSeconds
    ensures VerifyAccessToken(s, GenerateTokenPair(s, u, e, sid, issuedAt).accessToken, now).None?
  {
  }

  /** Within a pair, the access token never passes as a refresh token nor the reverse, whatever the secrets. */
  lemma PairTokensNotInterchangeable(s: Signer, u: string, e: string, sid: string, issuedAt: int, now: int)
    requires Faithful(s.codec)
    ensures VerifyRefreshToken(s, GenerateTokenPair(s, u, e, sid, issuedAt).accessToken, now).None?
    ensures VerifyAccessToken(s, GenerateTokenPair(s, u, e, sid, issuedAt).refreshToken, now).None?
  {
  }

  /**
   * With distinct secrets, a token signed with the access secret never verifies
   * as a refresh token, even one whose `type` claim says 'refresh', and a
   * token signed with the refresh secret never verifies as an access token.
   */
  lemma SecretsSeparateKinds(s: Signer, token: string, now: int)
    requires s.secrets.access != s.secrets.refresh
    requires s.codec.parse(token).Some?
    ensures s.codec.parse(token).value.key == s.secrets.access ==> VerifyRefreshToken(s, token, now).None?
    ensures s.codec.parse(token).value.key == s.secrets.refresh ==> VerifyAccessToken(s, token, now).None?
  {
  }

  /** Without configuration the two development defaults differ, so the separation above applies. */
  lemma DefaultSecretsDiffer()
    ensures SecretsFromEnv(None, None).access != SecretsFromEnv(None, None).refresh
  {
    assert DefaultAccessSecret[0] == 'a' && DefaultRefreshSecret[0] == 'r';
  }
}
