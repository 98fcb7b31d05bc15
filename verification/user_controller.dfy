/** The self-or-administrator checks, the role-change restriction and the
    administrator-only endpoints of the user resource. */
module UserController {
  import opened Outcomes
  import opened Entities
  import opened Dtos
  import opened JwtUtil
  import opened JwtAuthenticationFilter
  import opened SecurityUtils
  import UserService

  const ViewDeniedMessage: string := "You can only view your own profile"
  const UpdateDeniedMessage: string := "You can only update your own profile"
  const RoleChangeDeniedMessage: string := "Only admins can change user roles"

  /** `@PreAuthorize("hasRole('ADMIN')")`, checked before the method body runs. */
  function AdminOnly(ctx: SecurityContext): (r: Result<()>)
    ensures r.Ok? <==> ctx.Some? && "ROLE_ADMIN" in ctx.value.authorities
    ensures r.Err? ==> r.error == AuthorizationDenied
  {
    assert "ROLE_" + AdminRole == "ROLE_ADMIN";
    if HasRole(ctx, AdminRole) then Ok(()) else Err(AuthorizationDenied)
  }

  /** `getAllUsers`: administrators only. */
  function GetAllUsers(ctx: SecurityContext, db: Db): (r: Result<set<UserView>>)
    ensures r.Ok? <==> AdminOnly(ctx).Ok?
    ensures r.Ok? ==> r.value == UserService.GetAllUsers(db)
    ensures r.Ok? ==> forall k :: k in db.users ==> ViewOf(db.users[k]) in r.value
    ensures r.Ok? ==> forall v :: v in r.value ==> exists k :: k in db.users && v == ViewOf(db.users[k])
    ensures r.Err? ==> r.error == AuthorizationDenied
  {
    var _ :- AdminOnly(ctx);
    Ok(UserService.GetAllUsers(db))
  }

  /** `getUser`: one's own profile, or any when administrator. */
  function GetUser(ctx: SecurityContext, db: Db, id: int): (r: Result<UserView>)
    ensures r.Ok? ==> ctx.Some? && MayActFor(ctx.value.principal, id) && id in db.users && r.value == ViewOf(db.users[id])
    ensures (ctx.Some? && ctx.value.principal.userId.Some? && !MayActFor(ctx.value.principal, id))
              ==> r == Err(AccessDenied(ViewDeniedMessage))
    ensures (ctx.Some? && MayActFor(ctx.value.principal, id)) ==> r == UserService.GetUserById(db, id)
  {
    var allowed :- IsAdminOrCurrentUser(ctx, id);
    AdminOrCurrentUserIsPolicy(ctx, id);
    if !allowed then Err(AccessDenied(ViewDeniedMessage))
    else UserService.GetUserById(db, id)
  }

  /** `createUser`: administrators only. */
  function CreateUser(ctx: SecurityContext, db: Db, dto: UserCreateDTO, newId: int): (r: Result<Saved<User>>)
    requires newId !in db.users
    ensures !AdminOnly(ctx).Ok? ==> r == Err(AuthorizationDenied)
    ensures AdminOnly(ctx).Ok? ==> r == UserService.CreateUser(db, dto, newId)
  {
    var _ :- AdminOnly(ctx);
    UserService.CreateUser(db, dto, newId)
  }

  /** `updateUser`: the body is validated, then the caller must be the user or
      an administrator, and only an administrator may send a role. */
  function UpdateUser(ctx: SecurityContext, db: Db, id: int, dto: UserUpdateDTO, isEmail: string -> bool): (r: Result<Saved<User>>)
    ensures ValidateUserUpdate(dto, isEmail) != [] ==> r == Err(ValidationFailed(ValidateUserUpdate(dto, isEmail)))
    ensures r.Ok? ==> ctx.Some? && MayActFor(ctx.value.principal, id)
                      && (dto.role.Some? ==> ctx.value.principal.role == Some(AdminRole))
                      && r == UserService.UpdateUser(db, id, dto)
    ensures (ValidateUserUpdate(dto, isEmail) == [] && ctx.Some? && ctx.value.principal.userId.Some?
             && !MayActFor(ctx.value.principal, id))
              ==> r == Err(AccessDenied(UpdateDeniedMessage))
    ensures (ValidateUserUpdate(dto, isEmail) == [] && ctx.Some? && MayActFor(ctx.value.principal, id)
             && ctx.value.principal.role != Some(AdminRole) && dto.role.Some?)
              ==> r == Err(AccessDenied(RoleChangeDeniedMessage))
    ensures (ValidateUserUpdate(dto, isEmail) == [] && ctx.Some? && MayActFor(ctx.value.principal, id)
             && (dto.role.None? || ctx.value.principal.role == Some(AdminRole)))
              ==> r == UserService.UpdateUser(db, id, dto)
  {
    var violations := ValidateUserUpdate(dto, isEmail);
    if violations != [] then Err(ValidationFailed(violations))
    else
      var allowed :- IsAdminOrCurrentUser(ctx, id);
      AdminOrCurrentUserIsPolicy(ctx, id);
      if !allowed then Err(AccessDenied(UpdateDeniedMessage))
      else
        match IsAdmin(ctx)
        case Err(e) => Err(e)
        case Ok(admin) =>
          if !admin && dto.role.Some? then Err(AccessDenied(RoleChangeDeniedMessage))
          else UserService.UpdateUser(db, id, dto)
  }

  /** `deleteUser`: administrators only. */
  function DeleteUser(ctx: SecurityContext, db: Db, id: int): (r: Result<Db>)
    ensures !AdminOnly(ctx).Ok? ==> r == Err(AuthorizationDenied)
    ensures AdminOnly(ctx).Ok? ==> r == UserService.DeleteUser(db, id)
  {
    var _ :- AdminOnly(ctx);
    UserService.DeleteUser(db, id)
  }

  /** For a caller the filter authenticated, the administrator-only endpoints
      open exactly when the token's role claim is "ADMIN": the same test the
      explicit checks use. A refresh token, with its "ROLE_null", never opens them. */
  lemma AdminOnlyMatchesIsAdmin(t: Token)
    ensures AdminOnly(Some(AuthenticationOf(t))).Ok? <==> t.role == Some(AdminRole)
    ensures t.role.None? ==> AdminOnly(Some(AuthenticationOf(t))) == Err(AuthorizationDenied)
  {
    HasAdminRoleIffIsAdmin(t);
  }

  /** A USER may edit their own profile but not their own role. */
  lemma UserCannotPromoteThemself(ctx: SecurityContext, db: Db, me: int, dto: UserUpdateDTO, isEmail: string -> bool)
    requires ctx.Some? && ctx.value.principal.userId == Some(me) && ctx.value.principal.role == Some("USER")
    requires ValidateUserUpdate(dto, isEmail) == [] && dto.role == Some(ADMIN)
    ensures UpdateUser(ctx, db, me, dto, isEmail) == Err(AccessDenied(RoleChangeDeniedMessage))
    ensures UpdateUser(ctx, db, me, dto.(role := None), isEmail) == UserService.UpdateUser(db, me, dto.(role := None))
  {
    assert "USER" != AdminRole by { assert "USER"[0] != AdminRole[0]; }
    assert ValidateUserUpdate(dto.(role := None), isEmail) == ValidateUserUpdate(dto, isEmail);
  }
}
