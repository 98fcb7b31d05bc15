/** Reading the current principal and the three primitive policy checks.
    The security context is an input; none of the checks can change it. */
module SecurityUtils {
  import opened Outcomes
  import opened JwtAuthenticationFilter

  /** The authentication the filter stored for this request, if any. A
      principal of another class (the anonymous user on public paths) reads as
      absent. */
  type SecurityContext = Option<Authentication>

  const NoUserMessage: string := "No authenticated user found"

  /** The role string an administrator carries. */
  const AdminRole: string := "ADMIN"

  /** The policy the checks implement, stated on the principal itself:
      an administrator, or the user whose id is the target. */
  predicate MayActFor(u: AuthenticatedUser, targetId: int) {
    u.role == Some(AdminRole) || u.userId == Some(targetId)
  }

  /** `getCurrentUser`. */
  function GetCurrentUser(ctx: SecurityContext): (r: Result<AuthenticatedUser>)
    ensures r.Ok? <==> ctx.Some?
    ensures r.Ok? ==> r.value == ctx.value.principal
    ensures r.Err? ==> r.error == IllegalState(NoUserMessage)
  {
    match ctx
    case Some(auth) => Ok(auth.principal)
    case None => Err(IllegalState(NoUserMessage))
  }

  /** `isAdmin`: "ADMIN".equals(role), false for a null role. */
  function IsAdmin(ctx: SecurityContext): (r: Result<bool>)
    ensures r.Ok? <==> ctx.Some?
    ensures r.Ok? ==> (r.value <==> ctx.value.principal.role == Some(AdminRole))
    ensures r.Err? ==> r.error == IllegalState(NoUserMessage)
  {
    var u :- GetCurrentUser(ctx);
    Ok(u.role == Some(AdminRole))
  }

  /** `isCurrentUser`: dereferences the principal's id, so a principal without
      one raises a NullPointerException. */
  function IsCurrentUser(ctx: SecurityContext, userId: int): (r: Result<bool>)
    ensures ctx.None? ==> r == Err(IllegalState(NoUserMessage))
    ensures ctx.Some? && ctx.value.principal.userId.None? ==> r == Err(NullPointer)
    ensures ctx.Some? && ctx.value.principal.userId.Some? ==> r == Ok(ctx.value.principal.userId.value == userId)
  {
    var u :- GetCurrentUser(ctx);
    match u.userId
    case None => Err(NullPointer)
    case Some(id) => Ok(id == userId)
  }

  /** `isAdminOrCurrentUser`: short-circuits, so an administrator never reaches
      the id comparison. */
  function IsAdminOrCurrentUser(ctx: SecurityContext, userId: int): (r: Result<bool>)
    ensures ctx.None? ==> r == Err(IllegalState(NoUserMessage))
    ensures ctx.Some? && ctx.value.principal.role == Some(AdminRole) ==> r == Ok(true)
    ensures ctx.Some? && ctx.value.principal.role != Some(AdminRole) ==> r == IsCurrentUser(ctx, userId)
  {
    var admin :- IsAdmin(ctx);
    if admin then Ok(true) else IsCurrentUser(ctx, userId)
  }

  /** Whenever it answers, `isAdminOrCurrentUser` answers the policy; it fails
      only without a principal, or for a non-administrator without an id. */
  lemma AdminOrCurrentUserIsPolicy(ctx: SecurityContext, userId: int)
    ensures IsAdminOrCurrentUser(ctx, userId).Ok? ==> IsAdminOrCurrentUser(ctx, userId).value == MayActFor(ctx.value.principal, userId)
    ensures IsAdminOrCurrentUser(ctx, userId).Err? <==>
              ctx.None? || (ctx.value.principal.role != Some(AdminRole) && ctx.value.principal.userId.None?)
  {
  }

  /** The four combinations of {ADMIN, USER} with a matching or a different id. */
  lemma AdminOrCurrentUserTruthTable(username: string, id: int, other: int)
    requires id != other
    ensures IsAdminOrCurrentUser(Some(Authentication(AuthenticatedUser(username, Some(id), Some("ADMIN")), ["ROLE_ADMIN"])), id) == Ok(true)
    ensures IsAdminOrCurrentUser(Some(Authentication(AuthenticatedUser(username, Some(id), Some("ADMIN")), ["ROLE_ADMIN"])), other) == Ok(true)
    ensures IsAdminOrCurrentUser(Some(Authentication(AuthenticatedUser(username, Some(id), Some("USER")), ["ROLE_USER"])), id) == Ok(true)
    ensures IsAdminOrCurrentUser(Some(Authentication(AuthenticatedUser(username, Some(id), Some("USER")), ["ROLE_USER"])), other) == Ok(false)
  {
    assert "USER" != "ADMIN" by { assert "USER"[0] != "ADMIN"[0]; }
  }

  /** `hasRole('X')` of method security: the authorities include "ROLE_X". */
  predicate HasRole(ctx: SecurityContext, role: string) {
    ctx.Some? && ("ROLE_" + role) in ctx.value.authorities
  }

  lemma PrefixCancels(p: string, a: string, b: string)
    requires p + a == p + b
    ensures a == b
  {
    assert a == (p + a)[|p|..];
    assert b == (p + b)[|p|..];
  }

  /** For an authentication the filter built, `hasRole('ADMIN')` and `isAdmin`
      agree: the single authority is "ROLE_ADMIN" exactly when the role claim is
      "ADMIN" (an absent claim gives "ROLE_null"). */
  lemma HasAdminRoleIffIsAdmin(t: JwtUtil.Token)
    ensures HasRole(Some(AuthenticationOf(t)), AdminRole) <==> IsAdmin(Some(AuthenticationOf(t))) == Ok(true)
  {
    var auth := AuthenticationOf(t);
    if HasRole(Some(auth), AdminRole) {
      assert auth.authorities == [Authority(t.role)];
      assert Authority(t.role) == "ROLE_" + AdminRole;
      PrefixCancels("ROLE_", t.role.GetOr("null"), AdminRole);
    }
  }
}
