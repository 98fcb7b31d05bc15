/** The owner-or-administrator checks of the project endpoints, composed with
    validation and the project service. */
module ProjectController {
  import opened Outcomes
  import opened Entities
  import opened Dtos
  import opened JwtUtil
  import opened JwtAuthenticationFilter
  import opened SecurityUtils
  import ProjectService
  import GlobalExceptionHandler

  const CreateDeniedMessage: string := "You can only create projects for yourself"
  const UpdateDeniedMessage: string := "You can only update your own projects"
  const DeleteDeniedMessage: string := "You can only delete your own projects"

  /** `createProject`: for oneself, or for anyone when administrator. */
  function CreateProject(ctx: SecurityContext, db: Db, dto: ProjectCreateDTO, ownerId: int, newId: int): (r: Result<Saved<Project>>)
    requires newId !in db.projects
    ensures r.Ok? ==> ctx.Some? && MayActFor(ctx.value.principal, ownerId) && r == ProjectService.CreateProject(db, dto, ownerId, newId)
    ensures (ctx.Some? && ctx.value.principal.userId.Some? && !MayActFor(ctx.value.principal, ownerId))
              ==> r == Err(AccessDenied(CreateDeniedMessage))
    ensures (ctx.Some? && MayActFor(ctx.value.principal, ownerId)) ==> r == ProjectService.CreateProject(db, dto, ownerId, newId)
  {
    var allowed :- IsAdminOrCurrentUser(ctx, ownerId);
    AdminOrCurrentUserIsPolicy(ctx, ownerId);
    if !allowed then Err(AccessDenied(CreateDeniedMessage))
    else ProjectService.CreateProject(db, dto, ownerId, newId)
  }

  /** `updateProject`: the body is validated, then the current owner is checked. */
  function UpdateProject(ctx: SecurityContext, db: Db, id: int, dto: ProjectUpdateDTO): (r: Result<Saved<Project>>)
    ensures ValidateProjectUpdate(dto) != [] ==> r == Err(ValidationFailed(ValidateProjectUpdate(dto)))
    ensures (ValidateProjectUpdate(dto) == [] && id !in db.projects) ==> r == Err(NotFound("Project", id))
    ensures r.Ok? ==> ctx.Some? && id in db.projects && MayActFor(ctx.value.principal, db.projects[id].ownerId)
                      && r == ProjectService.UpdateProject(db, id, dto)
    ensures (ValidateProjectUpdate(dto) == [] && id in db.projects && ctx.Some? && ctx.value.principal.userId.Some?)
              ==> (r.Ok? <==> MayActFor(ctx.value.principal, db.projects[id].ownerId))
    ensures (r.Err? && ValidateProjectUpdate(dto) == [] && id in db.projects && ctx.Some? && ctx.value.principal.userId.Some?)
              ==> r.error == AccessDenied(UpdateDeniedMessage)
  {
    var violations := ValidateProjectUpdate(dto);
    if violations != [] then Err(ValidationFailed(violations))
    else
      var existing :- ProjectService.GetProjectById(db, id);
      var allowed :- IsAdminOrCurrentUser(ctx, existing.ownerId);
      AdminOrCurrentUserIsPolicy(ctx, existing.ownerId);
      if !allowed then Err(AccessDenied(UpdateDeniedMessage))
      else ProjectService.UpdateProject(db, id, dto)
  }

  /** `deleteProject`: only the current owner or an administrator. */
  function DeleteProject(ctx: SecurityContext, db: Db, id: int): (r: Result<Db>)
    ensures id !in db.projects ==> r == Err(NotFound("Project", id))
    ensures r.Ok? ==> ctx.Some? && id in db.projects && MayActFor(ctx.value.principal, db.projects[id].ownerId)
                      && r == ProjectService.DeleteProject(db, id)
    ensures (id in db.projects && ctx.Some? && ctx.value.principal.userId.Some?)
              ==> (r.Ok? <==> MayActFor(ctx.value.principal, db.projects[id].ownerId))
    ensures (r.Err? && id in db.projects && ctx.Some? && ctx.value.principal.userId.Some?)
              ==> r.error == AccessDenied(DeleteDeniedMessage)
  {
    var existing :- ProjectService.GetProjectById(db, id);
    var allowed :- IsAdminOrCurrentUser(ctx, existing.ownerId);
    AdminOrCurrentUserIsPolicy(ctx, existing.ownerId);
    if !allowed then Err(AccessDenied(DeleteDeniedMessage))
    else ProjectService.DeleteProject(db, id)
  }

  /** A USER signed in with a current access token who tries to delete a
      project owned by someone else (an administrator, say) gets 403 and the
      project stays. */
  lemma UserCannotDeleteOthersProject(j: Jwt, decode: Decoder, text: string, path: string, publicPaths: seq<string>,
                                      username: string, me: int, iat: int, now: int, readAt: int, db: Db, id: int)
    requires !ShouldNotFilter(path, publicPaths)
    requires decode(text) == Some(GenerateAccessToken(j, username, me, "USER", iat))
    requires now <= readAt && WithinLifetime(j, iat, AccessTokenExpiration, readAt)
    requires id in db.projects && db.projects[id].ownerId != me
    ensures var ctx := ContextAfter(Filter(path, publicPaths, j, decode, now, readAt, Some(BearerPrefix + text)));
            && DeleteProject(ctx, db, id) == Err(AccessDenied(DeleteDeniedMessage))
            && GlobalExceptionHandler.Handle(DeleteProject(ctx, db, id).error).status == GlobalExceptionHandler.Forbidden
  {
    AccessTokenAuthenticates(path, publicPaths, j, decode, text, username, me, "USER", iat, now, readAt);
    assert "USER" != AdminRole by { assert "USER"[0] != AdminRole[0]; }
  }
}
