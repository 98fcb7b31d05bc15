/** The permission checks of the task endpoints, composed with validation and
    the task service. A denied request returns an error and so leaves the
    store as it was. */
module TaskController {
  import opened Outcomes
  import opened Entities
  import opened Dtos
  import opened JwtAuthenticationFilter
  import opened SecurityUtils
  import TaskService
  import ProjectService
  import GlobalExceptionHandler

  const CreateDeniedMessage: string := "You can only create tasks in your own projects"
  const DeleteDeniedMessage: string := "You can only delete tasks in your own projects"
  const ModifyDeniedMessage: string := "You can only modify tasks assigned to you or in your own projects"

  /** Who may modify a task: an administrator, its assignee, or the owner of its project. */
  predicate MayModifyTask(u: AuthenticatedUser, t: Task, projectOwnerId: int) {
    u.role == Some(AdminRole) || (u.userId.Some? && (t.assigneeId == u.userId || u.userId.value == projectOwnerId))
  }

  /** `createTask`: the body is validated, then the project is read and its
      owner checked, and only then is the task stored. */
  function CreateTask(ctx: SecurityContext, db: Db, dto: TaskCreateDTO, newId: int): (r: Result<Saved<Task>>)
    requires newId !in db.tasks
    ensures ValidateTaskCreate(dto) != [] ==> r == Err(ValidationFailed(ValidateTaskCreate(dto)))
    ensures (ValidateTaskCreate(dto) == [] && dto.projectId.value !in db.projects)
              ==> r == Err(NotFound("Project", dto.projectId.value))
    ensures r.Ok? ==> ctx.Some? && dto.projectId.Some? && dto.projectId.value in db.projects
                      && MayActFor(ctx.value.principal, db.projects[dto.projectId.value].ownerId)
                      && r == TaskService.CreateTask(db, dto, newId)
    ensures (ValidateTaskCreate(dto) == [] && dto.projectId.value in db.projects && ctx.Some? && ctx.value.principal.userId.Some?
             && !MayActFor(ctx.value.principal, db.projects[dto.projectId.value].ownerId))
              ==> r == Err(AccessDenied(CreateDeniedMessage))
  {
    var violations := ValidateTaskCreate(dto);
    if violations != [] then Err(ValidationFailed(violations))
    else
      var project :- ProjectService.GetProjectById(db, dto.projectId.value);
      var allowed :- IsAdminOrCurrentUser(ctx, project.ownerId);
      AdminOrCurrentUserIsPolicy(ctx, project.ownerId);
      if !allowed then Err(AccessDenied(CreateDeniedMessage))
      else TaskService.CreateTask(db, dto, newId)
  }

  /** `checkTaskAccess`: an administrator passes at once; otherwise the caller
      must be the assignee or, failing that, the project's owner. The
      principal's id is dereferenced, so a principal without one fails there. */
  function CheckTaskAccess(ctx: SecurityContext, db: Db, taskId: int): (r: Result<()>)
    ensures ctx.None? ==> r == Err(IllegalState(NoUserMessage))
    ensures ctx.Some? && ctx.value.principal.role == Some(AdminRole) ==> r == Ok(())
    ensures (ctx.Some? && ctx.value.principal.role != Some(AdminRole) && taskId !in db.tasks)
              ==> r == Err(NotFound("Task", taskId))
    ensures (ctx.Some? && ctx.value.principal.userId.Some? && taskId in db.tasks && db.tasks[taskId].projectId in db.projects)
              ==> (r.Ok? <==> MayModifyTask(ctx.value.principal, db.tasks[taskId], db.projects[db.tasks[taskId].projectId].ownerId))
    ensures (r.Err? && ctx.Some? && ctx.value.principal.userId.Some? && taskId in db.tasks && db.tasks[taskId].projectId in db.projects)
              ==> r.error == AccessDenied(ModifyDeniedMessage)
    ensures r.Ok? ==> ctx.Some? && (ctx.value.principal.role == Some(AdminRole)
                        || (taskId in db.tasks && ctx.value.principal.userId.Some?
                            && (db.tasks[taskId].assigneeId == ctx.value.principal.userId
                                || (db.tasks[taskId].projectId in db.projects
                                    && db.projects[db.tasks[taskId].projectId].ownerId == ctx.value.principal.userId.value))))
  {
    var admin :- IsAdmin(ctx);
    if admin then Ok(())
    else
      var task :- TaskService.GetTaskById(db, taskId);
      match GetCurrentUser(ctx)
      case Err(e) => Err(e)
      case Ok(user) =>
        if task.assigneeId.Some? && user.userId.None? then Err(NullPointer)
        else if task.assigneeId.Some? && user.userId == task.assigneeId then Ok(())
        else
          var project :- ProjectService.GetProjectById(db, task.projectId);
          if user.userId.None? then Err(NullPointer)
          else if user.userId.value == project.ownerId then Ok(())
          else Err(AccessDenied(ModifyDeniedMessage))
  }

  /** `updateTask`: the access check, then the service's partial update. */
  function UpdateTask(ctx: SecurityContext, db: Db, id: int, dto: TaskUpdateDTO): (r: Result<Saved<Task>>)
    ensures CheckTaskAccess(ctx, db, id).Err? ==> r == Err(CheckTaskAccess(ctx, db, id).error)
    ensures CheckTaskAccess(ctx, db, id).Ok? ==> r == TaskService.UpdateTask(db, id, dto)
    ensures r.Ok? ==> ctx.Some? && id in db.tasks
                      && (ctx.value.principal.role == Some(AdminRole)
                          || (ctx.value.principal.userId.Some?
                              && (db.tasks[id].assigneeId == ctx.value.principal.userId
                                  || (db.tasks[id].projectId in db.projects
                                      && db.projects[db.tasks[id].projectId].ownerId == ctx.value.principal.userId.value))))
  {
    var _ :- CheckTaskAccess(ctx, db, id);
    TaskService.UpdateTask(db, id, dto)
  }

  /** `deleteTask`: only an administrator or the project's owner; being the
      assignee is not enough. */
  function DeleteTask(ctx: SecurityContext, db: Db, id: int): (r: Result<Db>)
    ensures id !in db.tasks ==> r == Err(NotFound("Task", id))
    ensures (id in db.tasks && db.tasks[id].projectId !in db.projects) ==> r == Err(NotFound("Project", db.tasks[id].projectId))
    ensures r.Ok? ==> ctx.Some? && id in db.tasks && db.tasks[id].projectId in db.projects
                      && MayActFor(ctx.value.principal, db.projects[db.tasks[id].projectId].ownerId)
                      && r == TaskService.DeleteTask(db, id)
    ensures (id in db.tasks && db.tasks[id].projectId in db.projects && ctx.Some? && ctx.value.principal.userId.Some?)
              ==> (r.Ok? <==> MayActFor(ctx.value.principal, db.projects[db.tasks[id].projectId].ownerId))
  {
    var task :- TaskService.GetTaskById(db, id);
    var project :- ProjectService.GetProjectById(db, task.projectId);
    var allowed :- IsAdminOrCurrentUser(ctx, project.ownerId);
    AdminOrCurrentUserIsPolicy(ctx, project.ownerId);
    if !allowed then Err(AccessDenied(DeleteDeniedMessage))
    else TaskService.DeleteTask(db, id)
  }

  /** An assignee who does not own the project may update the task but not
      delete it; the refusal reaches the client as 403. */
  lemma AssigneeMayUpdateButNotDelete(ctx: SecurityContext, db: Db, id: int, dto: TaskUpdateDTO, me: int)
    requires ctx.Some? && ctx.value.principal.role != Some(AdminRole) && ctx.value.principal.userId == Some(me)
    requires id in db.tasks && db.tasks[id].assigneeId == Some(me)
    requires db.tasks[id].projectId in db.projects && db.projects[db.tasks[id].projectId].ownerId != me
    ensures CheckTaskAccess(ctx, db, id) == Ok(())
    ensures DeleteTask(ctx, db, id) == Err(AccessDenied(DeleteDeniedMessage))
    ensures GlobalExceptionHandler.Handle(DeleteTask(ctx, db, id).error).status == GlobalExceptionHandler.Forbidden
  {
  }

  /** An unassigned task can be modified only by an administrator or its project's owner. */
  lemma UnassignedTaskOnlyOwner(ctx: SecurityContext, db: Db, id: int, me: int)
    requires ctx.Some? && ctx.value.principal.userId == Some(me)
    requires id in db.tasks && db.tasks[id].assigneeId.None? && db.tasks[id].projectId in db.projects
    ensures CheckTaskAccess(ctx, db, id).Ok? <==>
              ctx.value.principal.role == Some(AdminRole) || db.projects[db.tasks[id].projectId].ownerId == me
  {
  }

  /** An administrator updating a task that does not exist passes the access
      check and then gets the service's "not found", which no dedicated handler
      catches: the client sees 500. */
  lemma MissingTaskIsServerError(ctx: SecurityContext, db: Db, id: int, dto: TaskUpdateDTO)
    requires ctx.Some? && ctx.value.principal.role == Some(AdminRole) && id !in db.tasks
    ensures UpdateTask(ctx, db, id, dto) == Err(NotFound("Task", id))
    ensures GlobalExceptionHandler.Handle(UpdateTask(ctx, db, id, dto).error).status == GlobalExceptionHandler.InternalServerError
  {
  }
}
