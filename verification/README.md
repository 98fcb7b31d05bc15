# Tasker backend security core, in Dafny

This project models the authentication and authorisation core of the Tasker
task-management backend, a Spring service. It also models the record services
and request validators that this core guards. It covers:

- the login rate limiter;
- the JWT issuer and verifier;
- the bearer-token filter;
- the `SecurityUtils` checks;
- the login and refresh flows;
- the permission checks of the task, project and user controllers;
- the global exception handler;
- the task, project and user services;
- the `UserUpdateDTO`, `TaskCreateDTO` and `ProjectUpdateDTO` validators.

Everything is a pure function over immutable data:

- A thrown exception is an `Err` value of `Outcomes.Result`. Java's `null` is `Outcomes.Option.None`.
- Each repository is a map from id to record (`Entities.Db`). A write returns the new store, or an error and no store. A refused request therefore leaves the store untouched by construction.
- The rate limiter's table is a `map<string, AttemptInfo>`. Each limiter operation is one atomic transition of that table.
- Both clocks are explicit parameters. The limiter reads an `Instant` in nanoseconds. The token issuer reads a `Date` in milliseconds.
- A token is its claim set plus the key that signed it (`JwtUtil.Token`). Parsing compact text is an abstract `Decoder`. Verification means "signed with this instance's key and not expired". Whether a token is still accepted at the instant `exp` is a field of the verifier (`ExpiryBoundary`).
- The password encoder is an opaque `matches` function.
- The `@Email` check is an opaque predicate.
- The list of public paths is a parameter.

Where the code and the design description disagree, the model follows the code:

- **A refresh token opens protected endpoints.** The filter only calls `validateToken` and never reads the `tokenType` claim. So a current refresh token passes the gate. The resulting principal has a null id, a null role and the single authority `"ROLE_null"` (`JwtAuthenticationFilter.RefreshTokenAuthenticates`).
- **Such a principal then breaks the explicit checks.** `isCurrentUser` dereferences the null id and throws a `NullPointerException`, which the catch-all handler answers with 500. The administrator-only endpoints answer it with 403 instead.
- **An unknown username is counted against the limiter**, exactly like a wrong password. Both raise the same `BadCredentialsException`, and the controller records a failure for either.
- **A missing record gives 500, not 404.** `ResourceNotFoundException` has no dedicated handler, so it reaches the catch-all (`TaskController.MissingTaskIsServerError`). The 500 body echoes the exception's own message.
- **Passwords are stored raw.** `UserService.createUser` and `updateUser` store the password exactly as supplied, without the encoder. Login compares through the encoder (`UserService.CreateUser`, `UserService.UpdateUser`).
- **A header made only of commas fails the login request.** Java's `split` drops trailing empty strings, so an `X-Forwarded-For` header made only of commas splits into an empty array. Indexing it throws before the limiter is consulted (`AuthController.CommasOnlyHeaderFails`).
- **A refresh for a deleted user fails** with the message "User not found".

## Model

| member | source | states |
|---|---|---|
| LoginRateLimiter.IsBlocked | backend/src/main/java/cz/pavel/taskmanagement/backend/security/LoginRateLimiter.java:19-29 | blocked exactly when the key's live count is at least 5; an absent key leaves the table as it is; an expired entry is removed; the live view of every key and all other entries are unchanged |
| LoginRateLimiter.RecordFailedAttempt | backend/src/main/java/cz/pavel/taskmanagement/backend/security/LoginRateLimiter.java:31-38 | an absent or expired key gets count 1 and a window starting now; a live key gets count + 1 with the same window start; the live count rises by exactly one; other keys are untouched |
| LoginRateLimiter.RecordSuccessfulLogin | backend/src/main/java/cz/pavel/taskmanagement/backend/security/LoginRateLimiter.java:42-44 | the key's entry is gone, so the key is unblocked at every instant; other keys are untouched |
| LoginRateLimiter.BlockedDependsOnOwnEntry | backend/src/main/java/cz/pavel/taskmanagement/backend/security/LoginRateLimiter.java:19-29 | two tables that agree on a key give the same block verdict for it |
| LoginRateLimiter.PurgeThenFailIsFail | backend/src/main/java/cz/pavel/taskmanagement/backend/security/LoginRateLimiter.java:19-38 | removing an entry that had expired at the block check before recording a failure then or later gives the same table as recording it directly |
| LoginRateLimiter.FailuresAccumulate | backend/src/main/java/cz/pavel/taskmanagement/backend/security/LoginRateLimiter.java:31-60 | n failures inside the window opened by the first one leave the entry (n, first instant) |
| LoginRateLimiter.FiveFailuresBlockUntilWindowEnds | backend/src/main/java/cz/pavel/taskmanagement/backend/security/LoginRateLimiter.java:14-60 | five failures within 300 s of the first block the key up to and including first + 300 s, whenever the fifth came, and not after |
| LoginRateLimiter.FewerThanFiveFailuresDoNotBlock | backend/src/main/java/cz/pavel/taskmanagement/backend/security/LoginRateLimiter.java:14-29 | up to four failures in one window never block |
| LoginRateLimiter.FailAllFramesOtherKeys | backend/src/main/java/cz/pavel/taskmanagement/backend/security/LoginRateLimiter.java:31-38 | any run of failures on one key leaves every other key's entry as it was |
| JwtUtil.NewJwt | backend/src/main/java/cz/pavel/taskmanagement/backend/security/JwtUtil.java:24-33 | a null or blank secret means a freshly drawn random key; otherwise the key is the bytes the secret decodes to |
| JwtUtil.GenerateAccessToken | backend/src/main/java/cz/pavel/taskmanagement/backend/security/JwtUtil.java:35-48 | kind ACCESS, subject, user id and role as given, signed with the instance key, expiring 15 minutes after issue |
| JwtUtil.GenerateRefreshToken | backend/src/main/java/cz/pavel/taskmanagement/backend/security/JwtUtil.java:50-61 | kind REFRESH, subject only, with no id and no role, expiring 7 days after issue |
| JwtUtil.ParseToken | backend/src/main/java/cz/pavel/taskmanagement/backend/security/JwtUtil.java:68-74 | yields the claims exactly when the text decodes to a token under this key that has not expired; otherwise the parser's exception |
| JwtUtil.ValidateToken | backend/src/main/java/cz/pavel/taskmanagement/backend/security/JwtUtil.java:91-98 | true exactly when the token decodes, carries this instance's key and has not expired; the kind plays no part |
| JwtUtil.ValidateRefreshToken | backend/src/main/java/cz/pavel/taskmanagement/backend/security/JwtUtil.java:100-108 | true exactly when the token validates and its kind is REFRESH |
| JwtUtil.AccessTokenRoundTrip | backend/src/main/java/cz/pavel/taskmanagement/backend/security/JwtUtil.java:35-89 | the getters read back the username, id, role and "ACCESS" of a current access token, and refresh validation rejects it |
| JwtUtil.RefreshTokenRoundTrip | backend/src/main/java/cz/pavel/taskmanagement/backend/security/JwtUtil.java:50-108 | a current refresh token validates both ways, and its id and role read back as null |
| JwtUtil.ExpiredNeverValidates | backend/src/main/java/cz/pavel/taskmanagement/backend/security/JwtUtil.java:91-108 | once expired, a token is rejected by both validators at every later instant |
| JwtUtil.ForeignKeyNeverValidates | backend/src/main/java/cz/pavel/taskmanagement/backend/security/JwtUtil.java:68-108 | a token signed under other key bytes is rejected and its claims cannot be read |
| JwtUtil.RestartWithRandomKeyRejectsOldTokens | backend/src/main/java/cz/pavel/taskmanagement/backend/security/JwtUtil.java:24-29 | after a restart without a secret, no token signed before the restart validates |
| JwtUtil.SameDecodedSecretKeepsTokens | backend/src/main/java/cz/pavel/taskmanagement/backend/security/JwtUtil.java:28-30 | two secret strings that decode to the same bytes give instances that accept exactly the same tokens, so old tokens survive such a change of secret |
| JwtAuthenticationFilter.ShouldNotFilter | backend/src/main/java/cz/pavel/taskmanagement/backend/security/JwtAuthenticationFilter.java:26-30 | true exactly when some public prefix starts the path |
| JwtAuthenticationFilter.DoFilterInternal | backend/src/main/java/cz/pavel/taskmanagement/backend/security/JwtAuthenticationFilter.java:32-83 | a missing header or one without "Bearer " gives 401; a token that fails the validity check gives 401 "Invalid or expired token"; one that expires before the claims are read again gives 401 "Token validation failed"; authenticated exactly when the text after the 7-character prefix validates at both readings, and then the principal is the token's subject, id and role with the single authority "ROLE_" + role |
| JwtAuthenticationFilter.Filter | backend/src/main/java/cz/pavel/taskmanagement/backend/security/JwtAuthenticationFilter.java:26-74 | public paths pass unauthenticated; every other path goes through the bearer check |
| JwtAuthenticationFilter.AccessTokenAuthenticates | backend/src/main/java/cz/pavel/taskmanagement/backend/security/JwtAuthenticationFilter.java:46-83 | a current access token authenticates exactly its issued claims with authority "ROLE_" + role |
| JwtAuthenticationFilter.RefreshTokenAuthenticates | backend/src/main/java/cz/pavel/taskmanagement/backend/security/JwtAuthenticationFilter.java:49-83 | a current refresh token also passes the gate, with null id and role and authority "ROLE_null" |
| JwtAuthenticationFilter.ProtectedPathOutcomes | backend/src/main/java/cz/pavel/taskmanagement/backend/security/JwtAuthenticationFilter.java:32-74 | on a protected path the request is either stopped with 401 or carries the claims of a token this instance signed that had not expired at either reading |
| SecurityUtils.GetCurrentUser | backend/src/main/java/cz/pavel/taskmanagement/backend/security/SecurityUtils.java:10-16 | the stored principal, or IllegalStateException "No authenticated user found" when there is none |
| SecurityUtils.IsAdmin | backend/src/main/java/cz/pavel/taskmanagement/backend/security/SecurityUtils.java:18-20 | true exactly when the role equals "ADMIN"; a null role is not an administrator |
| SecurityUtils.IsCurrentUser | backend/src/main/java/cz/pavel/taskmanagement/backend/security/SecurityUtils.java:22-24 | compares the principal's id with the argument; a null id raises NullPointerException |
| SecurityUtils.IsAdminOrCurrentUser | backend/src/main/java/cz/pavel/taskmanagement/backend/security/SecurityUtils.java:26-28 | an administrator passes without the id comparison; anyone else gets the id comparison |
| SecurityUtils.AdminOrCurrentUserIsPolicy | backend/src/main/java/cz/pavel/taskmanagement/backend/security/SecurityUtils.java:18-28 | when it answers, the answer is "administrator or same id"; it fails exactly without a principal, or for a non-administrator without an id |
| SecurityUtils.AdminOrCurrentUserTruthTable | backend/src/main/java/cz/pavel/taskmanagement/backend/security/SecurityUtils.java:26-28 | ADMIN passes for any id, USER only for their own |
| SecurityUtils.HasAdminRoleIffIsAdmin | backend/src/main/java/cz/pavel/taskmanagement/backend/security/JwtAuthenticationFilter.java:76-83 | for a filter-built authentication, having authority ROLE_ADMIN and `isAdmin` agree |
| Dtos.MatchesPasswordPattern | backend/src/main/java/cz/pavel/taskmanagement/backend/dto/user/UserUpdateDTO.java:20-23 | true exactly when the password has a lower-case letter, an upper-case letter and a digit, and no line terminator |
| Dtos.ValidateUserUpdate | backend/src/main/java/cz/pavel/taskmanagement/backend/dto/user/UserUpdateDTO.java:14-31 | no violation exactly when a present email is valid and a present password has 8 to 128 UTF-16 units and matches the pattern; absent fields pass |
| Dtos.BindTaskCreate | backend/src/main/java/cz/pavel/taskmanagement/backend/dto/task/TaskCreateDTO.java:17-36 | an omitted status is TODO and an omitted priority is MEDIUM; an explicit null clears either, and a given value is kept; the other fields are kept |
| Dtos.ValidateTaskCreate | backend/src/main/java/cz/pavel/taskmanagement/backend/dto/task/TaskCreateDTO.java:19-33 | no violation exactly when the title has a character above U+0020 and at most 200 units, the description at most 2000, and a project id is given |
| Dtos.ValidateProjectUpdate | backend/src/main/java/cz/pavel/taskmanagement/backend/dto/project/ProjectUpdateDTO.java:11-18 | no violation exactly when a present name has at most 100 units and a present description at most 1000; the empty update passes |
| Dtos.LineBreakPasswordRejected | backend/src/main/java/cz/pavel/taskmanagement/backend/dto/user/UserUpdateDTO.java:21 | "Passw0rd\n" fails the pattern although it has every class |
| Dtos.PasswordWithEveryClassAccepted | backend/src/main/java/cz/pavel/taskmanagement/backend/dto/user/UserUpdateDTO.java:20-23 | "Passw0rd" matches the pattern |
| Dtos.PasswordLengthBoundary | backend/src/main/java/cz/pavel/taskmanagement/backend/dto/user/UserUpdateDTO.java:19 | eight characters pass the size rule and seven do not |
| Dtos.WhitespaceTitleRejected | backend/src/main/java/cz/pavel/taskmanagement/backend/dto/task/TaskCreateDTO.java:19-21 | every title made only of characters up to U+0020 is reported as missing, and when nothing else is wrong that is the only violation |
| JavaText.Trim | backend/src/main/java/cz/pavel/taskmanagement/backend/controller/AuthController.java:55 | the result is the slice of the input between the first and the last character above U+0020; it is empty exactly when every character is at most U+0020 |
| JavaText.Utf16Length | backend/src/main/java/cz/pavel/taskmanagement/backend/dto/user/UserUpdateDTO.java:19 | between one and two units per character, and exactly one per character inside the Basic Multilingual Plane |
| Entities.FindByUsername | backend/src/main/java/cz/pavel/taskmanagement/backend/service/AuthService.java:28-29 | under the unique constraint, finds the stored user with that name exactly when one exists |
| GlobalExceptionHandler.Handle | backend/src/main/java/cz/pavel/taskmanagement/backend/exception/GlobalExceptionHandler.java:22-113 | 403 with the fixed message exactly for the two denial kinds; 401 echoing the message exactly for bad credentials; 400 exactly for validation failures (field map) and illegal arguments; 500 for every other kind |
| GlobalExceptionHandler.DenialsAreIndistinguishable | backend/src/main/java/cz/pavel/taskmanagement/backend/exception/GlobalExceptionHandler.java:22-50 | AccessDenied with any message and AuthorizationDenied give the same response |
| GlobalExceptionHandler.FieldErrorMapLastWins | backend/src/main/java/cz/pavel/taskmanagement/backend/exception/GlobalExceptionHandler.java:56-61 | the errors map holds exactly the rejected fields, each with the message of its last violation |
| GlobalExceptionHandler.SecondViolationOnFieldWins | backend/src/main/java/cz/pavel/taskmanagement/backend/exception/GlobalExceptionHandler.java:56-61 | of two violations on one field only the second reaches the client |
| TaskService.GetTaskById | backend/src/main/java/cz/pavel/taskmanagement/backend/service/TaskService.java:39-44 | the stored task, or NotFound("Task", id) |
| TaskService.GetTasksByProject | backend/src/main/java/cz/pavel/taskmanagement/backend/service/TaskService.java:46-54 | NotFound("Project") for a missing project; otherwise exactly the stored tasks of that project |
| TaskService.GetTasksByAssignee | backend/src/main/java/cz/pavel/taskmanagement/backend/service/TaskService.java:56-64 | NotFound("User") for a missing user; otherwise exactly the stored tasks assigned to them |
| TaskService.GetTasksByStatus | backend/src/main/java/cz/pavel/taskmanagement/backend/service/TaskService.java:66-71 | exactly the stored tasks with that status; a task stored with a null status is in no answer |
| TaskService.CreateTask | backend/src/main/java/cz/pavel/taskmanagement/backend/service/TaskService.java:73-97 | succeeds exactly when the project exists and a named assignee exists; the project is checked first; the request's fields are copied under the new id and nothing else changes |
| TaskService.UpdateTask | backend/src/main/java/cz/pavel/taskmanagement/backend/service/TaskService.java:99-135 | NotFound for a missing task or named assignee; each present field replaces the stored one and each absent field is kept; id and project never change; only that task changes |
| TaskService.DeleteTask | backend/src/main/java/cz/pavel/taskmanagement/backend/service/TaskService.java:137-146 | NotFound for a missing id; otherwise exactly that task is removed |
| TaskService.UpdateNeverUnassigns | backend/src/main/java/cz/pavel/taskmanagement/backend/service/TaskService.java:125-129 | an assigned task stays assigned after any update |
| TaskService.UpdateTaskIdempotent | backend/src/main/java/cz/pavel/taskmanagement/backend/service/TaskService.java:99-135 | applying the same update twice gives the same store and record as once |
| TaskService.EmptyTaskUpdateChangesNothing | backend/src/main/java/cz/pavel/taskmanagement/backend/service/TaskService.java:105-129 | an update with every field absent leaves the store as it was |
| TaskService.ExplicitNullStatusIsStored | backend/src/main/java/cz/pavel/taskmanagement/backend/service/TaskService.java:79-93 | a create body that sends a null status and leaves out the priority stores a task with no status and priority MEDIUM, which no status query finds |
| TaskService.TaskWritesPreserveIntegrity | backend/src/main/java/cz/pavel/taskmanagement/backend/service/TaskService.java:73-146 | create, update and delete keep every record under its own id and every project and assignee reference resolvable |
| ProjectService.GetProjectById | backend/src/main/java/cz/pavel/taskmanagement/backend/service/ProjectService.java:35-40 | the stored project, or NotFound("Project", id) |
| ProjectService.GetProjectsByOwner | backend/src/main/java/cz/pavel/taskmanagement/backend/service/ProjectService.java:42-50 | NotFound("User") for a missing owner; otherwise exactly the stored projects of that owner |
| ProjectService.CreateProject | backend/src/main/java/cz/pavel/taskmanagement/backend/service/ProjectService.java:52-67 | succeeds exactly when the owner exists; stores exactly name, description and owner under the new id |
| ProjectService.UpdateProject | backend/src/main/java/cz/pavel/taskmanagement/backend/service/ProjectService.java:69-87 | NotFound for a missing id; a present name or description replaces the stored one; the owner and id never change |
| ProjectService.DeleteProject | backend/src/main/java/cz/pavel/taskmanagement/backend/service/ProjectService.java:89-98 | NotFound for a missing id; otherwise exactly that project is removed |
| ProjectService.UpdateProjectIdempotent | backend/src/main/java/cz/pavel/taskmanagement/backend/service/ProjectService.java:69-87 | the empty update changes nothing, and repeating an update changes nothing further |
| ProjectService.ProjectWritesPreserveIntegrity | backend/src/main/java/cz/pavel/taskmanagement/backend/service/ProjectService.java:52-98 | create and update keep ids and references intact; delete does too when no task belongs to the project |
| UserService.GetAllUsers | backend/src/main/java/cz/pavel/taskmanagement/backend/service/UserService.java:27-33 | the projection of every stored user and nothing else |
| UserService.GetUserById | backend/src/main/java/cz/pavel/taskmanagement/backend/service/UserService.java:35-40 | the user's projection, or NotFound("User", id) |
| UserService.CreateUser | backend/src/main/java/cz/pavel/taskmanagement/backend/service/UserService.java:42-65 | a taken username is refused first, then a taken email, each with its own message; otherwise the user is stored as supplied, raw password included |
| UserService.UpdateUser | backend/src/main/java/cz/pavel/taskmanagement/backend/service/UserService.java:67-102 | NotFound for a missing id; an email held by another user is refused; present fields replace stored ones and absent ones are kept; the username never changes |
| UserService.DeleteUser | backend/src/main/java/cz/pavel/taskmanagement/backend/service/UserService.java:104-113 | NotFound for a missing id; otherwise exactly that user is removed |
| UserService.OwnEmailAccepted | backend/src/main/java/cz/pavel/taskmanagement/backend/service/UserService.java:72-78 | re-sending one's own current email is accepted |
| UserService.CreateUserKeepsUnique | backend/src/main/java/cz/pavel/taskmanagement/backend/service/UserService.java:45-61 | after a successful create, usernames and emails are still unique |
| UserService.UpdateUserKeepsUnique | backend/src/main/java/cz/pavel/taskmanagement/backend/service/UserService.java:72-98 | after a successful update, usernames and emails are still unique |
| AuthService.IssueTokens | backend/src/main/java/cz/pavel/taskmanagement/backend/service/AuthService.java:36-45 | an access token for the stored username, id and role name, a refresh token for the username, type "Bearer" and the user's projection |
| AuthService.Login | backend/src/main/java/cz/pavel/taskmanagement/backend/service/AuthService.java:25-46 | succeeds exactly when a stored user with that name has a matching password, issuing that user's tokens; any failure is BadCredentials "Invalid username or password" |
| AuthService.RefreshToken | backend/src/main/java/cz/pavel/taskmanagement/backend/service/AuthService.java:48-72 | refused with "Invalid or expired refresh token" unless refresh validation holds; the parser's exception when the token expires before the subject is read; "User not found" when the subject is no longer stored; otherwise tokens for that stored user |
| AuthService.FailedLoginsLookAlike | backend/src/main/java/cz/pavel/taskmanagement/backend/service/AuthService.java:28-34 | an unknown username and a wrong password give identical results |
| AuthService.AccessTokenCannotRefresh | backend/src/main/java/cz/pavel/taskmanagement/backend/service/AuthService.java:51-53 | an access token is always refused at refresh |
| AuthService.RefreshReadsCurrentRole | backend/src/main/java/cz/pavel/taskmanagement/backend/service/AuthService.java:55-64 | the refreshed access token carries the role and id stored now |
| AuthService.ExpiryBetweenReadsEscapes | backend/src/main/java/cz/pavel/taskmanagement/backend/service/AuthService.java:51-55 | a refresh token that passes the check at its last valid instant and is read a moment later fails with the parser's exception, which the handler answers with 500 |
| AuthController.SplitOnCommaFirst | backend/src/main/java/cz/pavel/taskmanagement/backend/controller/AuthController.java:55 | splitting a non-empty header gives nothing exactly when it is all commas, and otherwise starts with the text before the first comma |
| AuthController.GetClientIp | backend/src/main/java/cz/pavel/taskmanagement/backend/controller/AuthController.java:52-58 | a null or empty header gives the peer address; otherwise the trimmed text before the first comma; a header of commas alone throws |
| AuthController.Login | backend/src/main/java/cz/pavel/taskmanagement/backend/controller/AuthController.java:25-44 | 429 exactly when the key ip:username is blocked at the check, leaving the limiter as it was; otherwise success clears the key, and bad credentials record exactly one failure at the second clock reading, restarting the window when the entry has expired by then; other keys are untouched |
| AuthController.BadLoginsAreCounted | backend/src/main/java/cz/pavel/taskmanagement/backend/controller/AuthController.java:29-43 | up to five bad logins in one window leave the limiter as if each failure had been recorded directly at its recording instant |
| AuthController.LockedOutEvenWithRightPassword | backend/src/main/java/cz/pavel/taskmanagement/backend/controller/AuthController.java:29-43 | after five bad logins within the window, the next attempt before it ends gets 429 even with the right password |
| AuthController.CommasOnlyHeaderFails | backend/src/main/java/cz/pavel/taskmanagement/backend/controller/AuthController.java:54-55 | the header ",," makes the client address lookup throw |
| TaskController.CreateTask | backend/src/main/java/cz/pavel/taskmanagement/backend/controller/TaskController.java:73-84 | invalid bodies are rejected first; a task is created only for an administrator or the project's owner; others get AccessDenied |
| TaskController.CheckTaskAccess | backend/src/main/java/cz/pavel/taskmanagement/backend/controller/TaskController.java:111-129 | an administrator passes; otherwise passes exactly for the task's assignee or its project's owner, and a refusal is AccessDenied |
| TaskController.UpdateTask | backend/src/main/java/cz/pavel/taskmanagement/backend/controller/TaskController.java:86-95 | the service update runs only after the access check passes |
| TaskController.DeleteTask | backend/src/main/java/cz/pavel/taskmanagement/backend/controller/TaskController.java:97-109 | deletes exactly when the caller is an administrator or the project's owner |
| TaskController.AssigneeMayUpdateButNotDelete | backend/src/main/java/cz/pavel/taskmanagement/backend/controller/TaskController.java:97-129 | an assignee who is not the owner passes the update check but is refused the delete with 403 |
| TaskController.UnassignedTaskOnlyOwner | backend/src/main/java/cz/pavel/taskmanagement/backend/controller/TaskController.java:117-128 | an unassigned task can be modified only by an administrator or the project owner |
| TaskController.MissingTaskIsServerError | backend/src/main/java/cz/pavel/taskmanagement/backend/controller/TaskController.java:91-93 | an administrator updating a missing task gets NotFound, which the handler answers with 500 |
| ProjectController.CreateProject | backend/src/main/java/cz/pavel/taskmanagement/backend/controller/ProjectController.java:53-65 | a project is created for oneself, or for anyone by an administrator; otherwise AccessDenied |
| ProjectController.UpdateProject | backend/src/main/java/cz/pavel/taskmanagement/backend/controller/ProjectController.java:67-79 | validation first; then updates exactly when the caller is an administrator or the current owner |
| ProjectController.DeleteProject | backend/src/main/java/cz/pavel/taskmanagement/backend/controller/ProjectController.java:81-91 | deletes exactly when the caller is an administrator or the current owner |
| ProjectController.UserCannotDeleteOthersProject | backend/src/test/java/cz/pavel/taskmanagement/backend/integrationTests/ProjectControllerIT.java:151-177 | a USER with a current access token deleting another's project gets 403 |
| UserController.AdminOnly | backend/src/main/java/cz/pavel/taskmanagement/backend/controller/UserController.java:30-93 | passes exactly when the authorities include ROLE_ADMIN; otherwise AuthorizationDenied |
| UserController.GetAllUsers | backend/src/main/java/cz/pavel/taskmanagement/backend/controller/UserController.java:30-37 | administrators only; they get exactly the service's answer, the projection of every stored user and nothing else |
| UserController.GetUser | backend/src/main/java/cz/pavel/taskmanagement/backend/controller/UserController.java:39-48 | one's own profile, or any profile for an administrator; otherwise AccessDenied |
| UserController.CreateUser | backend/src/main/java/cz/pavel/taskmanagement/backend/controller/UserController.java:50-57 | administrators only, then the service create |
| UserController.UpdateUser | backend/src/main/java/cz/pavel/taskmanagement/backend/controller/UserController.java:59-75 | validation first; then self or administrator; a non-administrator sending a role is refused |
| UserController.DeleteUser | backend/src/main/java/cz/pavel/taskmanagement/backend/controller/UserController.java:77-84 | administrators only, then the service delete |
| UserController.AdminOnlyMatchesIsAdmin | backend/src/main/java/cz/pavel/taskmanagement/backend/controller/UserController.java:30-93 | for a filter-built caller the admin-only gate opens exactly when the role claim is "ADMIN"; a refresh token never opens it |
| UserController.UserCannotPromoteThemself | backend/src/main/java/cz/pavel/taskmanagement/backend/controller/UserController.java:69-71 | a USER sending a role for their own profile is refused, and the same request without the role goes through |

## Left out

- HMAC signing, compact serialisation and the jjwt parser are left out. A token is its claims plus the signing key bytes, and an abstract `Decoder` stands in for parsing.
- Base64 decoding of the secret is an opaque `SecretDecoder` parameter. The exception for a secret that is not Base64, or that decodes to too short a key, is not modelled.
- `iat` and `exp` are kept in milliseconds. The serialised claims would round them to whole seconds; that rounding is not modelled.
- The password encoder is left out; it is an opaque `matches` parameter.
- `@Email` is left out; it is an opaque predicate parameter.
- Concurrency is left out. `ConcurrentHashMap.compute` and `AtomicInteger` are treated as sequential, atomic transitions.
- LoginRateLimiter.RecordFailedAttempt: the count is an unbounded `nat`, so the 32-bit wrap-around of `AtomicInteger` is not modelled. It would take 2^31 failures in one five-minute window.
- The wall clocks `Instant.now()` and `new Date()` are parameters. Every reading that can change an outcome has its own parameter. The readings below share one instant instead:
- LoginRateLimiter.RecordFailedAttempt: the expiry test and the start of a new window read the clock separately; one instant stands for both. The two readings are nanoseconds apart.
- JwtAuthenticationFilter.DoFilterInternal: the three claim getters each parse the token again; one instant `readAt` stands for their three readings. A token that expires between two of the getters is refused with the same 401 as one that expires before the first of them.
- AuthService.IssueTokens: the access token and the refresh token each read `new Date()`; one instant stands for both, so their `iat` claims are equal here.
- Spring and servlet plumbing is left out: `SecurityContextHolder` storage, `sendError`, response building, logging, timestamps and request details. `@PreAuthorize` and `@ExceptionHandler` dispatch are written out as explicit calls.
- The public path list of `SecurityConfig` is not part of this model; it is a parameter.
- Repositories are maps, so list order is not modelled: the list queries return sets.
- `getAllTasks` and `getAllProjects`, and the GET endpoints that only forward to the services, are left out: they read everything and carry no check beyond the filter.
- The refresh endpoint of `AuthController` is left out as a separate member. It forwards to `AuthService.RefreshToken`, which takes no limiter, so refresh cannot touch the rate limiter.
- The `deleteUserByEmail` endpoint is modelled only through its administrator gate `UserController.AdminOnly`. It calls a service method that the `UserService` in this model does not have.
- Validation of `LoginRequest`, `RefreshTokenRequest`, `UserCreateDTO`, `ProjectCreateDTO` and `TaskUpdateDTO` is left out; these request classes are not part of this model. Those bodies are treated as already accepted.
- The column constraints of the entities and the cascade of a delete are left out; the entity mappings are not part of this model. Deleting a user or a project may therefore leave references dangling, and `ProjectService.ProjectWritesPreserveIntegrity` states integrity only for a project that has no tasks.
- The message text of `ResourceNotFoundException` is left out. Not-found is the value `NotFound(resource, id)`, and the 500 body carries the exception itself (`ExceptionMessage`).
- A repository's refusal of a null id is the single error kind `NullId`; the repository code is not part of this model. The controllers never reach it, because validation requires the project id.
- The order of validation violations is left out. Bean validation does not fix that order; the model lists violations in declaration order.
- The package of `GlobalExceptionHandler` is left out. Its source declares a package different from the rest of the application, and whether component scanning picks it up depends on configuration outside this model. The model assumes that it handles the application's exceptions.
