/** Issuing and verifying the signed session tokens of RFC 7519.
    A token is its claim set tagged with the key that signed it; the HMAC and
    the compact serialisation are not modelled. Verifying means "signed with
    this instance's key and not expired". */
module JwtUtil {
  import opened Outcomes
  import opened JavaText

  /** Lifetimes in milliseconds, the unit of `java.util.Date`. */
  const AccessTokenExpiration: int := 900000      // 15 minutes
  const RefreshTokenExpiration: int := 604800000  // 7 days

  /** The private `tokenType` claim. */
  datatype TokenKind = Access | Refresh

  function TokenTypeClaim(k: TokenKind): string {
    match k
    case Access => "ACCESS"
    case Refresh => "REFRESH"
  }

  /** The HMAC key bytes decoded from the configured secret, or a key drawn at
      random at start-up (told apart by the nonce of the draw). */
  datatype SigningKey = Configured(material: seq<bv8>) | Generated(nonce: nat)

  /** `Base64.getDecoder().decode`: several secret strings may decode to the
      same bytes (padding may be left out). */
  type SecretDecoder = string -> seq<bv8>

  /** How the parser treats the instant `exp` itself. */
  datatype ExpiryBoundary =
    | ExpiredAfterExp  // a token is still accepted at `exp` (the library's own check)
    | ExpiredAtExp     // a token is rejected from `exp` on

  /** The claims of a signed token: `sub`, `iat` and `exp` of section 4.1 of
      RFC 7519, plus the private `userId`, `role` and `tokenType` claims. */
  datatype Token = Token(
    kind: TokenKind,
    subject: string,
    userId: Option<int>,
    role: Option<string>,
    issuedAt: int,
    expiration: int,
    key: SigningKey)

  /** A `JwtUtil` instance: its key and its expiry check. */
  datatype Jwt = Jwt(key: SigningKey, boundary: ExpiryBoundary)

  /** Reads a compact token into its claims and signing key, without checking
      either; `None` for text that is not a token at all. */
  type Decoder = string -> Option<Token>

  /** The constructor: a blank or missing secret means a random key; any
      other secret is decoded into the key bytes. */
  function NewJwt(jwtSecret: Option<string>, decodeSecret: SecretDecoder, randomNonce: nat, boundary: ExpiryBoundary): (j: Jwt)
    ensures j.boundary == boundary
    ensures jwtSecret.None? || IsBlank(jwtSecret.value) <==> j.key.Generated?
    ensures j.key.Generated? ==> j.key.nonce == randomNonce
    ensures j.key.Configured? ==> jwtSecret.Some? && j.key.material == decodeSecret(jwtSecret.value)
  {
    match jwtSecret
    case Some(secret) =>
      if IsBlank(secret) then Jwt(Generated(randomNonce), boundary) else Jwt(Configured(decodeSecret(secret)), boundary)
    case None => Jwt(Generated(randomNonce), boundary)
  }

  predicate IsExpired(j: Jwt, t: Token, now: int) {
    match j.boundary
    case ExpiredAfterExp => now > t.expiration
    case ExpiredAtExp => now >= t.expiration
  }

  /** The parser accepts the token: signed with this instance's key and not expired. */
  predicate Accepts(j: Jwt, t: Token, now: int) {
    t.key == j.key && !IsExpired(j, t, now)
  }

  /** `generateAccessToken`. */
  function GenerateAccessToken(j: Jwt, username: string, userId: int, role: string, now: int): (t: Token)
    ensures t.kind == Access && t.key == j.key
    ensures t.subject == username && t.userId == Some(userId) && t.role == Some(role)
    ensures t.issuedAt == now && t.expiration - t.issuedAt == 15 * 60 * 1000
  {
    Token(Access, username, Some(userId), Some(role), now, now + AccessTokenExpiration, j.key)
  }

  /** `generateRefreshToken`: no `userId` and no `role` claim. */
  function GenerateRefreshToken(j: Jwt, username: string, now: int): (t: Token)
    ensures t.kind == Refresh && t.key == j.key
    ensures t.subject == username && t.userId.None? && t.role.None?
    ensures t.issuedAt == now && t.expiration - t.issuedAt == 7 * 24 * 60 * 60 * 1000
  {
    Token(Refresh, username, None, None, now, now + RefreshTokenExpiration, j.key)
  }

  /** `parseToken`: the claims of an acceptable token, or the parser's exception. */
  function ParseToken(j: Jwt, decode: Decoder, text: string, now: int): (r: Result<Token>)
    ensures r.Ok? <==> decode(text).Some? && Accepts(j, decode(text).value, now)
    ensures r.Ok? ==> r.value == decode(text).value
    ensures r.Err? ==> r.error == InvalidJwt
  {
    match decode(text)
    case None => Err(InvalidJwt)
    case Some(t) => if Accepts(j, t, now) then Ok(t) else Err(InvalidJwt)
  }

  function GetUsernameFromToken(j: Jwt, decode: Decoder, text: string, now: int): Result<string> {
    var t :- ParseToken(j, decode, text, now);
    Ok(t.subject)
  }

  function GetUserIdFromToken(j: Jwt, decode: Decoder, text: string, now: int): Result<Option<int>> {
    var t :- ParseToken(j, decode, text, now);
    Ok(t.userId)
  }

  function GetRoleFromToken(j: Jwt, decode: Decoder, text: string, now: int): Result<Option<string>> {
    var t :- ParseToken(j, decode, text, now);
    Ok(t.role)
  }

  function GetTokenType(j: Jwt, decode: Decoder, text: string, now: int): Result<string> {
    var t :- ParseToken(j, decode, text, now);
    Ok(TokenTypeClaim(t.kind))
  }

  /** `validateToken`: parsing succeeds; the token's kind is never looked at. */
  function ValidateToken(j: Jwt, decode: Decoder, text: string, now: int): (b: bool)
    ensures b <==> ParseToken(j, decode, text, now).Ok?
    ensures b <==> decode(text).Some? && decode(text).value.key == j.key && !IsExpired(j, decode(text).value, now)
  {
    ParseToken(j, decode, text, now).Ok?
  }

  /** `validateRefreshToken`: parsing succeeds and the `tokenType` claim is "REFRESH". */
  function ValidateRefreshToken(j: Jwt, decode: Decoder, text: string, now: int): (b: bool)
    ensures b <==> ValidateToken(j, decode, text, now) && decode(text).value.kind == Refresh
  {
    match ParseToken(j, decode, text, now)
    case Ok(t) => TokenTypeClaim(t.kind) == "REFRESH"
    case Err(_) => false
  }

  /** The instants at which a token issued at `iat` with lifetime `ttl` is accepted. */
  predicate WithinLifetime(j: Jwt, iat: int, ttl: int, now: int) {
    match j.boundary
    case ExpiredAfterExp => now <= iat + ttl
    case ExpiredAtExp => now < iat + ttl
  }

  /** Round trip: the getters read back exactly what `generateAccessToken` embedded. */
  lemma AccessTokenRoundTrip(j: Jwt, decode: Decoder, text: string, username: string, userId: int, role: string, iat: int, now: int)
    requires decode(text) == Some(GenerateAccessToken(j, username, userId, role, iat))
    requires WithinLifetime(j, iat, AccessTokenExpiration, now)
    ensures ValidateToken(j, decode, text, now)
    ensures !ValidateRefreshToken(j, decode, text, now)
    ensures GetUsernameFromToken(j, decode, text, now) == Ok(username)
    ensures GetUserIdFromToken(j, decode, text, now) == Ok(Some(userId))
    ensures GetRoleFromToken(j, decode, text, now) == Ok(Some(role))
    ensures GetTokenType(j, decode, text, now) == Ok("ACCESS")
  {
  }

  /** A refresh token validates, passes `validateRefreshToken`, and yields null
      for `userId` and `role`. */
  lemma RefreshTokenRoundTrip(j: Jwt, decode: Decoder, text: string, username: string, iat: int, now: int)
    requires decode(text) == Some(GenerateRefreshToken(j, username, iat))
    requires WithinLifetime(j, iat, RefreshTokenExpiration, now)
    ensures ValidateToken(j, decode, text, now)
    ensures ValidateRefreshToken(j, decode, text, now)
    ensures GetUsernameFromToken(j, decode, text, now) == Ok(username)
    ensures GetUserIdFromToken(j, decode, text, now) == Ok(None)
    ensures GetRoleFromToken(j, decode, text, now) == Ok(None)
    ensures GetTokenType(j, decode, text, now) == Ok("REFRESH")
  {
  }

  /** Once expired a token stays rejected, by both validators. */
  lemma ExpiredNeverValidates(j: Jwt, decode: Decoder, text: string, now: int, later: int)
    requires decode(text).Some? && IsExpired(j, decode(text).value, now)
    requires now <= later
    ensures !ValidateToken(j, decode, text, later)
    ensures !ValidateRefreshToken(j, decode, text, later)
  {
  }

  /** A token signed by one instance is rejected by an instance holding another key. */
  lemma ForeignKeyNeverValidates(j1: Jwt, j2: Jwt, decode: Decoder, text: string, now: int)
    requires decode(text).Some? && decode(text).value.key == j1.key
    requires j1.key != j2.key
    ensures !ValidateToken(j2, decode, text, now)
    ensures !ValidateRefreshToken(j2, decode, text, now)
    ensures GetUsernameFromToken(j2, decode, text, now) == Err(InvalidJwt)
  {
  }

  /** Restarting without a configured secret draws a new key: no token signed
      under a configured secret, nor under an earlier draw, survives. */
  lemma RestartWithRandomKeyRejectsOldTokens(previous: Jwt, jwtSecret: Option<string>, decodeSecret: SecretDecoder, nonce: nat,
                                             boundary: ExpiryBoundary, decode: Decoder, text: string, now: int)
    requires jwtSecret.None? || IsBlank(jwtSecret.value)
    requires previous.key.Configured? || (previous.key.Generated? && previous.key.nonce != nonce)
    requires decode(text).Some? && decode(text).value.key == previous.key
    ensures !ValidateToken(NewJwt(jwtSecret, decodeSecret, nonce, boundary), decode, text, now)
  {
    ForeignKeyNeverValidates(previous, NewJwt(jwtSecret, decodeSecret, nonce, boundary), decode, text, now);
  }

  /** Re-deploying with a different secret string that decodes to the same
      bytes keeps every earlier token valid: the key is the bytes, not the text. */
  lemma SameDecodedSecretKeepsTokens(s1: string, s2: string, decodeSecret: SecretDecoder, nonce1: nat, nonce2: nat,
                                     boundary: ExpiryBoundary, decode: Decoder, text: string, now: int)
    requires !IsBlank(s1) && !IsBlank(s2) && decodeSecret(s1) == decodeSecret(s2)
    ensures ValidateToken(NewJwt(Some(s1), decodeSecret, nonce1, boundary), decode, text, now)
        <==> ValidateToken(NewJwt(Some(s2), decodeSecret, nonce2, boundary), decode, text, now)
    ensures ValidateRefreshToken(NewJwt(Some(s1), decodeSecret, nonce1, boundary), decode, text, now)
        <==> ValidateRefreshToken(NewJwt(Some(s2), decodeSecret, nonce2, boundary), decode, text, now)
  {
    assert NewJwt(Some(s1), decodeSecret, nonce1, boundary) == NewJwt(Some(s2), decodeSecret, nonce2, boundary);
  }
}
