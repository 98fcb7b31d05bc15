/** The per-request gate: bearer header in, authenticated principal or 401 out.
    It asks the codec only whether the token validates, never which kind it is. */
module JwtAuthenticationFilter {
  import opened Outcomes
  import opened JavaText
  import opened JwtUtil

  const BearerPrefix: string := "Bearer "

  const MissingHeaderMessage: string := "Missing or invalid Authorization header"
  const InvalidTokenMessage: string := "Invalid or expired token"
  const ValidationFailedMessage: string := "Token validation failed"

  /** The principal placed in the security context; both ids may be null. */
  datatype AuthenticatedUser = AuthenticatedUser(username: string, userId: Option<int>, role: Option<string>)

  /** The authentication object: principal plus granted authorities. */
  datatype Authentication = Authentication(principal: AuthenticatedUser, authorities: seq<string>)

  datatype FilterResult =
    | NotFiltered                  // public path: the chain continues unauthenticated
    | Unauthorized(message: string) // 401 sent, the chain stops
    | Authenticated(auth: Authentication) // context set, the chain continues

  /** `shouldNotFilter`: the path starts with one of the public prefixes. */
  function ShouldNotFilter(path: string, publicPaths: seq<string>): (b: bool)
    ensures b <==> exists i :: 0 <= i < |publicPaths| && publicPaths[i] <= path
    decreases |publicPaths|
  {
    if publicPaths == [] then false
    else publicPaths[0] <= path || ShouldNotFilter(path, publicPaths[1..])
  }

  /** The single authority granted: "ROLE_" followed by the role claim, which
      Java renders as "null" when the claim is absent. */
  function Authority(role: Option<string>): string {
    "ROLE_" + Render(role)
  }

  /** The principal and authority built from a parsed token. */
  function AuthenticationOf(t: Token): Authentication {
    Authentication(AuthenticatedUser(t.subject, t.userId, t.role), [Authority(t.role)])
  }

  /** `doFilterInternal`. The token is the header minus its 7-character prefix.
      `validateToken` parses it at `now`; the three claim getters parse it again
      at `readAt`, so a token that expires in between is refused by the catch. */
  function DoFilterInternal(j: Jwt, decode: Decoder, now: int, readAt: int, header: Option<string>): (r: FilterResult)
    ensures !r.NotFiltered?
    ensures header.None? || !(BearerPrefix <= header.value) ==> r == Unauthorized(MissingHeaderMessage)
    ensures (header.Some? && BearerPrefix <= header.value && !ValidateToken(j, decode, header.value[7..], now))
              ==> r == Unauthorized(InvalidTokenMessage)
    ensures (header.Some? && BearerPrefix <= header.value && ValidateToken(j, decode, header.value[7..], now)
             && !ValidateToken(j, decode, header.value[7..], readAt))
              ==> r == Unauthorized(ValidationFailedMessage)
    ensures r.Authenticated? <==>
              header.Some? && BearerPrefix <= header.value
              && ValidateToken(j, decode, header.value[7..], now) && ValidateToken(j, decode, header.value[7..], readAt)
    ensures r.Authenticated? ==> r.auth == AuthenticationOf(decode(header.value[7..]).value)
  {
    if header.None? || !(BearerPrefix <= header.value) then
      Unauthorized(MissingHeaderMessage)
    else
      var token := header.value[7..];
      if !ValidateToken(j, decode, token, now) then
        Unauthorized(InvalidTokenMessage)
      else
        var username := GetUsernameFromToken(j, decode, token, readAt);
        var userId := GetUserIdFromToken(j, decode, token, readAt);
        var role := GetRoleFromToken(j, decode, token, readAt);
        if username.Err? || userId.Err? || role.Err? then
          // any exception while reading the claims is answered with 401
          Unauthorized(ValidationFailedMessage)
        else
          Authenticated(Authentication(AuthenticatedUser(username.value, userId.value, role.value), [Authority(role.value)]))
  }

  /** The filter as the servlet chain runs it. */
  function Filter(path: string, publicPaths: seq<string>, j: Jwt, decode: Decoder, now: int, readAt: int,
                  header: Option<string>): (r: FilterResult)
    ensures r.NotFiltered? <==> ShouldNotFilter(path, publicPaths)
    ensures !ShouldNotFilter(path, publicPaths) ==> r == DoFilterInternal(j, decode, now, readAt, header)
  {
    if ShouldNotFilter(path, publicPaths) then NotFiltered else DoFilterInternal(j, decode, now, readAt, header)
  }

  /** The authentication downstream handlers see. */
  function ContextAfter(r: FilterResult): Option<Authentication> {
    if r.Authenticated? then Some(r.auth) else None
  }

  /** A current access token in a well-formed header authenticates its owner
      with exactly the issued claims and the authority "ROLE_" + role. */
  lemma AccessTokenAuthenticates(path: string, publicPaths: seq<string>, j: Jwt, decode: Decoder, text: string,
                                 username: string, userId: int, role: string, iat: int, now: int, readAt: int)
    requires !ShouldNotFilter(path, publicPaths)
    requires decode(text) == Some(GenerateAccessToken(j, username, userId, role, iat))
    requires now <= readAt && WithinLifetime(j, iat, AccessTokenExpiration, readAt)
    ensures Filter(path, publicPaths, j, decode, now, readAt, Some(BearerPrefix + text))
         == Authenticated(Authentication(AuthenticatedUser(username, Some(userId), Some(role)), ["ROLE_" + role]))
  {
    assert (BearerPrefix + text)[7..] == text;
  }

  /** The gate does not look at the kind: a current refresh token is accepted
      too, yielding a principal with null id and role and authority "ROLE_null". */
  lemma RefreshTokenAuthenticates(path: string, publicPaths: seq<string>, j: Jwt, decode: Decoder, text: string,
                                  username: string, iat: int, now: int, readAt: int)
    requires !ShouldNotFilter(path, publicPaths)
    requires decode(text) == Some(GenerateRefreshToken(j, username, iat))
    requires now <= readAt && WithinLifetime(j, iat, RefreshTokenExpiration, readAt)
    ensures Filter(path, publicPaths, j, decode, now, readAt, Some(BearerPrefix + text))
         == Authenticated(Authentication(AuthenticatedUser(username, None, None), ["ROLE_null"]))
  {
    assert (BearerPrefix + text)[7..] == text;
    assert Authority(None) == "ROLE_" + "null" == "ROLE_null";
  }

  /** On a protected path, a request either gets 401 and stops, or continues
      with an authentication built from a token this instance signed and
      that had not expired at either reading. */
  lemma ProtectedPathOutcomes(path: string, publicPaths: seq<string>, j: Jwt, decode: Decoder, now: int, readAt: int,
                              header: Option<string>)
    requires !ShouldNotFilter(path, publicPaths)
    ensures var r := Filter(path, publicPaths, j, decode, now, readAt, header);
            || r.Unauthorized?
            || (r.Authenticated? && exists t :: (decode(header.value[7..]) == Some(t)
                                                 && Accepts(j, t, now) && Accepts(j, t, readAt) && r.auth == AuthenticationOf(t)))
  {
    var r := Filter(path, publicPaths, j, decode, now, readAt, header);
    if r.Authenticated? {
      var t := decode(header.value[7..]).value;
      assert Accepts(j, t, now) && Accepts(j, t, readAt) && r.auth == AuthenticationOf(t);
    }
  }
}
