/** Password login and token refresh. The user store is the users map, the
    password encoder is an opaque `matches` function, and `now` is the clock
    of `java.util.Date`, in milliseconds. */
module AuthService {
  import opened Outcomes
  import opened Entities
  import opened JwtUtil
  import GlobalExceptionHandler

  const InvalidCredentialsMessage: string := "Invalid username or password"
  const InvalidRefreshTokenMessage: string := "Invalid or expired refresh token"
  const UserNotFoundMessage: string := "User not found"

  /** The value of the `type` field of every login response. */
  const BearerType: string := "Bearer"

  datatype LoginRequest = LoginRequest(username: string, password: string)

  /** `LoginResponse`: both tokens (as their claims), the token type and the user's projection. */
  datatype LoginResponse = LoginResponse(accessToken: Token, refreshToken: Token, tokenType: string, user: UserView)

  /** `PasswordEncoder.matches(raw, encoded)`. */
  type PasswordMatcher = (string, string) -> bool

  /** The pair of tokens and the response issued to a user. */
  function IssueTokens(j: Jwt, u: User, now: int): (r: LoginResponse)
    ensures r.accessToken == GenerateAccessToken(j, u.username, u.id, RoleName(u.role), now)
    ensures r.refreshToken == GenerateRefreshToken(j, u.username, now)
    ensures r.tokenType == BearerType && r.user == ViewOf(u)
  {
    LoginResponse(GenerateAccessToken(j, u.username, u.id, RoleName(u.role), now),
                  GenerateRefreshToken(j, u.username, now), BearerType, ViewOf(u))
  }

  /** A stored user has this name and the encoder accepts the password against
      the stored hash. */
  predicate CredentialsMatch(users: map<int, User>, matches: PasswordMatcher, request: LoginRequest) {
    exists k :: k in users && users[k].username == request.username && matches(request.password, users[k].password)
  }

  /** `login`. */
  function Login(users: map<int, User>, matches: PasswordMatcher, j: Jwt, now: int, request: LoginRequest): (r: Result<LoginResponse>)
    requires UsernamesUnique(users)
    ensures r.Ok? <==> CredentialsMatch(users, matches, request)
    ensures r.Err? ==> r.error == BadCredentials(InvalidCredentialsMessage)
    ensures r.Ok? ==> exists k :: k in users && users[k].username == request.username && r.value == IssueTokens(j, users[k], now)
  {
    match FindByUsername(users, request.username)
    case None => Err(BadCredentials(InvalidCredentialsMessage))
    case Some(u) =>
      if !matches(request.password, u.password) then Err(BadCredentials(InvalidCredentialsMessage))
      else Ok(IssueTokens(j, u, now))
  }

  /** `refreshToken`: only a valid refresh token is accepted, and the new
      access token carries the user's role as stored now. The clock is read
      three times: `validateRefreshToken` parses the token at `now`, reading
      the subject parses it again at `readAt`, and the new tokens are issued
      at `issueAt`. A token that expires between the first two readings makes
      the second parse throw, and that exception is not a credentials error. */
  function RefreshToken(users: map<int, User>, j: Jwt, decode: Decoder, now: int, readAt: int, issueAt: int,
                        text: string): (r: Result<LoginResponse>)
    requires UsernamesUnique(users)
    ensures !ValidateRefreshToken(j, decode, text, now) ==> r == Err(BadCredentials(InvalidRefreshTokenMessage))
    ensures (ValidateRefreshToken(j, decode, text, now) && !ValidateToken(j, decode, text, readAt)) ==> r == Err(InvalidJwt)
    ensures (ValidateRefreshToken(j, decode, text, now) && ValidateToken(j, decode, text, readAt)) ==>
              (r.Ok? <==> UsernameTaken(users, decode(text).value.subject))
    ensures (ValidateRefreshToken(j, decode, text, now) && ValidateToken(j, decode, text, readAt)
             && !UsernameTaken(users, decode(text).value.subject))
              ==> r == Err(BadCredentials(UserNotFoundMessage))
    ensures r.Ok? ==> exists k :: k in users && users[k].username == decode(text).value.subject
                                 && r.value == IssueTokens(j, users[k], issueAt)
  {
    if !ValidateRefreshToken(j, decode, text, now) then Err(BadCredentials(InvalidRefreshTokenMessage))
    else
      var userName :- GetUsernameFromToken(j, decode, text, readAt);
      match FindByUsername(users, userName)
      case None => Err(BadCredentials(UserNotFoundMessage))
      case Some(u) => Ok(IssueTokens(j, u, issueAt))
  }

  /** An unknown user and a wrong password are answered identically. */
  lemma FailedLoginsLookAlike(users: map<int, User>, matches: PasswordMatcher, j: Jwt, now: int,
                              unknown: LoginRequest, wrong: LoginRequest)
    requires UsernamesUnique(users)
    requires !UsernameTaken(users, unknown.username)
    requires UsernameTaken(users, wrong.username) && !CredentialsMatch(users, matches, wrong)
    ensures Login(users, matches, j, now, unknown) == Login(users, matches, j, now, wrong)
  {
  }

  /** An access token, however fresh, cannot be used to refresh. */
  lemma AccessTokenCannotRefresh(users: map<int, User>, j: Jwt, decode: Decoder, now: int, readAt: int, issueAt: int,
                                 text: string, username: string, userId: int, role: string, iat: int)
    requires UsernamesUnique(users)
    requires decode(text) == Some(GenerateAccessToken(j, username, userId, role, iat))
    ensures RefreshToken(users, j, decode, now, readAt, issueAt, text) == Err(BadCredentials(InvalidRefreshTokenMessage))
  {
  }

  /** Refreshing after a role change issues an access token with the new role:
      the role comes from the store, not from any earlier token. */
  lemma RefreshReadsCurrentRole(users: map<int, User>, j: Jwt, decode: Decoder, now: int, readAt: int, issueAt: int,
                                text: string, id: int, iat: int)
    requires UsernamesUnique(users) && id in users && users[id].id == id
    requires decode(text) == Some(GenerateRefreshToken(j, users[id].username, iat))
    requires now <= readAt && WithinLifetime(j, iat, RefreshTokenExpiration, readAt)
    ensures RefreshToken(users, j, decode, now, readAt, issueAt, text).Ok?
    ensures RefreshToken(users, j, decode, now, readAt, issueAt, text).value.accessToken.role == Some(RoleName(users[id].role))
    ensures RefreshToken(users, j, decode, now, readAt, issueAt, text).value.accessToken.userId == Some(id)
  {
    var r := RefreshToken(users, j, decode, now, readAt, issueAt, text);
    var k :| k in users && users[k].username == users[id].username && r.value == IssueTokens(j, users[k], issueAt);
    assert k == id;
  }

  /** A refresh token that expires between the validity check and the read of
      its subject is refused with the parser's exception, not with a
      credentials error, and the client gets 500 rather than 401. */
  lemma ExpiryBetweenReadsEscapes(users: map<int, User>, j: Jwt, decode: Decoder, readAt: int, issueAt: int,
                                  text: string, username: string, iat: int)
    requires UsernamesUnique(users) && j.boundary == ExpiredAfterExp
    requires decode(text) == Some(GenerateRefreshToken(j, username, iat))
    requires readAt == iat + RefreshTokenExpiration + 1
    ensures RefreshToken(users, j, decode, iat + RefreshTokenExpiration, readAt, issueAt, text) == Err(InvalidJwt)
    ensures GlobalExceptionHandler.Handle(InvalidJwt).status == GlobalExceptionHandler.InternalServerError
  {
  }
}
