/** The login endpoint: client address, rate-limit key, the limiter's verdict,
    the password check, and the limiter update that follows. Two clocks are
    read: the limiter's `Instant` (nanoseconds) and the token issuer's `Date`
    (milliseconds). */
module AuthController {
  import opened Outcomes
  import opened JavaText
  import opened Entities
  import opened JwtUtil
  import opened LoginRateLimiter
  import AuthService

  /** The parts of the servlet request the endpoint reads. */
  datatype HttpRequest = HttpRequest(forwardedFor: Option<string>, remoteAddr: string)

  /** The text before the first comma, or all of it when there is none. */
  function BeforeFirstComma(s: string): (p: string)
    ensures p <= s
    ensures forall k :: 0 <= k < |p| ==> p[k] != ','
    ensures |p| < |s| ==> s[|p|] == ','
  {
    if s == [] || s[0] == ',' then [] else [s[0]] + BeforeFirstComma(s[1..])
  }

  /** Every comma-separated field of `s`, empty ones included. */
  function Fields(s: string): (r: seq<string>)
    ensures |r| >= 1
    ensures r[0] == BeforeFirstComma(s)
    ensures (forall i :: 0 <= i < |r| ==> r[i] == []) <==> (forall k :: 0 <= k < |s| ==> s[k] == ',')
    decreases |s|
  {
    if s == [] then [[]]
    else
      var rest := Fields(s[1..]);
      assert forall k :: 1 <= k < |s| ==> s[k] == s[1..][k - 1];
      if s[0] == ',' then
        assert forall i :: 0 <= i < |rest| ==> ([[]] + rest)[i + 1] == rest[i];
        assert (forall k :: 0 <= k < |s| ==> s[k] == ',') <==> (forall k :: 0 <= k < |s[1..]| ==> s[1..][k] == ',');
        [[]] + rest
      else
        [[s[0]] + rest[0]] + rest[1..]
  }

  /** The trailing empty strings `String.split` drops. */
  function DropTrailingEmpty(parts: seq<string>): (r: seq<string>)
    ensures r <= parts
    ensures r == [] <==> forall i :: 0 <= i < |parts| ==> parts[i] == []
    decreases |parts|
  {
    if parts == [] then []
    else if parts[|parts| - 1] == [] then DropTrailingEmpty(parts[..|parts| - 1])
    else parts
  }

  /** `s.split(",")`: the whole string when it has no comma, otherwise its
      fields with the trailing empty ones removed. */
  function JavaSplitOnComma(s: string): seq<string> {
    if ',' !in s then [s] else DropTrailingEmpty(Fields(s))
  }

  /** What `split(",")` yields for a non-empty header: nothing exactly when the
      header is all commas, and otherwise a first element that is the text
      before the first comma. */
  lemma SplitOnCommaFirst(s: string)
    requires s != []
    ensures JavaSplitOnComma(s) == [] <==> forall k :: 0 <= k < |s| ==> s[k] == ','
    ensures JavaSplitOnComma(s) != [] ==> JavaSplitOnComma(s)[0] == BeforeFirstComma(s)
  {
    if ',' !in s {
      assert s[0] != ',';
    }
  }

  /** `getClientIp`: the first entry of a non-empty X-Forwarded-For, trimmed,
      else the peer address. A header of commas alone splits into nothing, and
      indexing the empty array throws. */
  function GetClientIp(forwardedFor: Option<string>, remoteAddr: string): (r: Result<string>)
    ensures forwardedFor.None? || forwardedFor.value == [] ==> r == Ok(remoteAddr)
    ensures forwardedFor.Some? && forwardedFor.value != [] ==>
              (r.Err? <==> forall k :: 0 <= k < |forwardedFor.value| ==> forwardedFor.value[k] == ',')
    ensures r.Err? ==> r.error == IndexOutOfBounds
    ensures forwardedFor.Some? && forwardedFor.value != [] && r.Ok? ==> r.value == Trim(BeforeFirstComma(forwardedFor.value))
  {
    if forwardedFor.Some? && forwardedFor.value != [] then
      SplitOnCommaFirst(forwardedFor.value);
      var parts := JavaSplitOnComma(forwardedFor.value);
      if parts == [] then Err(IndexOutOfBounds) else Ok(Trim(parts[0]))
    else
      Ok(remoteAddr)
  }

  /** The key the limiter counts under. */
  function RateLimitKey(clientIp: string, username: string): string {
    clientIp + ":" + username
  }

  datatype LoginOutcome =
    | TooManyRequests                       // 429 with an empty body
    | LoggedIn(response: AuthService.LoginResponse) // 200
    | Failed(error: Error)                  // the exception propagates to the handler

  /** The outcome of one request and the limiter table after it. */
  datatype LoginExchange = LoginExchange(outcome: LoginOutcome, attempts: Attempts)

  /** `login`. Only `BadCredentialsException` is caught and counted. The
      limiter reads the clock once in `isBlocked` (at `clock`) and again in
      `recordFailedAttempt` (at `recordAt`), after the password check; an
      entry that was live at the first reading may have expired by the second. */
  function Login(limiter: Attempts, clock: Instant, recordAt: Instant, users: map<int, User>,
                 matches: AuthService.PasswordMatcher, j: Jwt, now: int, http: HttpRequest,
                 body: AuthService.LoginRequest): (r: LoginExchange)
    requires UsernamesUnique(users)
    ensures GetClientIp(http.forwardedFor, http.remoteAddr).Err? ==> r == LoginExchange(Failed(IndexOutOfBounds), limiter)
    ensures GetClientIp(http.forwardedFor, http.remoteAddr).Ok? ==>
              var key := RateLimitKey(GetClientIp(http.forwardedFor, http.remoteAddr).value, body.username);
              && (r.outcome.TooManyRequests? <==> LiveCount(limiter, key, clock) >= MaxAttempts)
              && (r.outcome.TooManyRequests? ==> r.attempts == limiter)
              && (!r.outcome.TooManyRequests? ==> (r.outcome.LoggedIn? <==> AuthService.CredentialsMatch(users, matches, body)))
              && (r.outcome.LoggedIn? ==> r.outcome.response == AuthService.Login(users, matches, j, now, body).value
                                          && r.attempts == RecordSuccessfulLogin(limiter, key))
              && (r.outcome.Failed? ==> r.outcome.error == BadCredentials(AuthService.InvalidCredentialsMessage))
              && (r.outcome.Failed? ==>
                    var live := key in limiter && !LoginRateLimiter.IsExpired(limiter[key], clock)
                                && !LoginRateLimiter.IsExpired(limiter[key], recordAt);
                    && key in r.attempts
                    && (live ==> r.attempts[key] == AttemptInfo(limiter[key].count + 1, limiter[key].windowStart))
                    && (!live ==> r.attempts[key] == AttemptInfo(1, recordAt)))
              && (r.outcome.Failed? && clock <= recordAt ==> r.attempts == RecordFailedAttempt(limiter, key, recordAt))
              && r.attempts - {key} == limiter - {key}
  {
    match GetClientIp(http.forwardedFor, http.remoteAddr)
    case Err(e) => LoginExchange(Failed(e), limiter)
    case Ok(ip) =>
      var key := RateLimitKey(ip, body.username);
      var check := IsBlocked(limiter, key, clock);
      if check.blocked then LoginExchange(TooManyRequests, check.attempts)
      else
        match AuthService.Login(users, matches, j, now, body)
        case Ok(response) => LoginExchange(LoggedIn(response), RecordSuccessfulLogin(check.attempts, key))
        case Err(e) =>
          PurgeThenFailIsFail(limiter, key, clock, recordAt);
          if e.BadCredentials? then LoginExchange(Failed(e), RecordFailedAttempt(check.attempts, key, recordAt))
          else LoginExchange(Failed(e), check.attempts)
  }

  /** When one request reads the limiter's clock: at the block check, and
      again when a failure is recorded. */
  datatype Timing = Timing(checkedAt: Instant, recordedAt: Instant)

  /** The clock does not run backwards within a request. */
  predicate InOrder(ts: seq<Timing>) {
    forall i :: 0 <= i < |ts| ==> ts[i].checkedAt <= ts[i].recordedAt
  }

  /** The instants at which the failures of `ts` are recorded. */
  function RecordedAt(ts: seq<Timing>): (r: seq<Instant>)
    ensures |r| == |ts|
    ensures forall i :: 0 <= i < |ts| ==> r[i] == ts[i].recordedAt
  {
    seq(|ts|, i requires 0 <= i < |ts| => ts[i].recordedAt)
  }

  /** The limiter table after the same login request arrives once per entry of `ts`. */
  function LoginSeries(limiter: Attempts, users: map<int, User>, matches: AuthService.PasswordMatcher, j: Jwt, now: int,
                       http: HttpRequest, body: AuthService.LoginRequest, ts: seq<Timing>): Attempts
    requires UsernamesUnique(users)
    decreases |ts|
  {
    if ts == [] then limiter
    else
      var before := LoginSeries(limiter, users, matches, j, now, http, body, ts[..|ts| - 1]);
      var last := ts[|ts| - 1];
      Login(before, last.checkedAt, last.recordedAt, users, matches, j, now, http, body).attempts
  }

  /** Up to five bad logins inside one window are each counted once: the
      table ends as if the failures had been recorded directly. */
  lemma {:induction false} BadLoginsAreCounted(limiter: Attempts, users: map<int, User>, matches: AuthService.PasswordMatcher,
                                               j: Jwt, now: int, http: HttpRequest, body: AuthService.LoginRequest, ts: seq<Timing>)
    requires UsernamesUnique(users) && !AuthService.CredentialsMatch(users, matches, body)
    requires GetClientIp(http.forwardedFor, http.remoteAddr).Ok?
    requires InOrder(ts) && WithinFirstWindow(RecordedAt(ts)) && |ts| <= MaxAttempts
    requires FreeAt(limiter, RateLimitKey(GetClientIp(http.forwardedFor, http.remoteAddr).value, body.username), ts[0].checkedAt)
    ensures LoginSeries(limiter, users, matches, j, now, http, body, ts)
         == FailAll(limiter, RateLimitKey(GetClientIp(http.forwardedFor, http.remoteAddr).value, body.username), RecordedAt(ts))
    decreases |ts|
  {
    var key := RateLimitKey(GetClientIp(http.forwardedFor, http.remoteAddr).value, body.username);
    var n := |ts| - 1;
    var init := ts[..n];
    var times := RecordedAt(ts);
    assert times[..n] == RecordedAt(init);
    if n == 0 {
      assert init == [];
    } else {
      assert init[0] == ts[0];
      BadLoginsAreCounted(limiter, users, matches, j, now, http, body, init);
      assert forall i :: 0 <= i < n ==> RecordedAt(init)[i] == times[i];
      FailuresAccumulate(limiter, key, RecordedAt(init));
      assert LiveCount(FailAll(limiter, key, RecordedAt(init)), key, ts[n].checkedAt) == n;
    }
  }

  /** Five bad logins within five minutes of the first lock the key: until
      that window ends the next attempt gets 429, even with the right password. */
  lemma LockedOutEvenWithRightPassword(limiter: Attempts, users: map<int, User>, matches: AuthService.PasswordMatcher,
                                       j: Jwt, now: int, http: HttpRequest, bad: AuthService.LoginRequest,
                                       good: AuthService.LoginRequest, ts: seq<Timing>, clock: Instant, recordAt: Instant)
    requires UsernamesUnique(users) && !AuthService.CredentialsMatch(users, matches, bad)
    requires good.username == bad.username
    requires GetClientIp(http.forwardedFor, http.remoteAddr).Ok?
    requires InOrder(ts) && WithinFirstWindow(RecordedAt(ts)) && |ts| == MaxAttempts
    requires FreeAt(limiter, RateLimitKey(GetClientIp(http.forwardedFor, http.remoteAddr).value, bad.username), ts[0].checkedAt)
    requires clock <= ts[0].recordedAt + BlockDuration
    ensures Login(LoginSeries(limiter, users, matches, j, now, http, bad, ts), clock, recordAt, users, matches, j, now, http, good).outcome
         == TooManyRequests
  {
    var key := RateLimitKey(GetClientIp(http.forwardedFor, http.remoteAddr).value, bad.username);
    BadLoginsAreCounted(limiter, users, matches, j, now, http, bad, ts);
    FiveFailuresBlockUntilWindowEnds(limiter, key, RecordedAt(ts), clock);
  }

  /** A header made only of commas makes the endpoint fail before the limiter
      is consulted. */
  lemma CommasOnlyHeaderFails(remoteAddr: string)
    ensures GetClientIp(Some(",,"), remoteAddr) == Err(IndexOutOfBounds)
  {
  }
}
