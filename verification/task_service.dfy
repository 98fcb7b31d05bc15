/** Task records: lookups that fail with "not found", a create that links an
    existing project and optional assignee, a partial update in which an
    absent field keeps the stored value, and a delete. */
module TaskService {
  import opened Outcomes
  import opened Entities
  import opened Dtos

  /** `getTaskById`. */
  function GetTaskById(db: Db, id: int): (r: Result<Task>)
    ensures r.Ok? <==> id in db.tasks
    ensures r.Ok? ==> r.value == db.tasks[id]
    ensures r.Err? ==> r.error == NotFound("Task", id)
  {
    if id in db.tasks then Ok(db.tasks[id]) else Err(NotFound("Task", id))
  }

  /** `getTasksByProject`: the project must exist; list order is not modelled. */
  function GetTasksByProject(db: Db, projectId: int): (r: Result<set<Task>>)
    ensures r.Err? <==> projectId !in db.projects
    ensures r.Err? ==> r.error == NotFound("Project", projectId)
    ensures r.Ok? ==> forall k :: k in db.tasks ==> (db.tasks[k] in r.value <==> db.tasks[k].projectId == projectId)
    ensures r.Ok? ==> forall t :: t in r.value ==> t in db.tasks.Values
  {
    if projectId !in db.projects then Err(NotFound("Project", projectId))
    else Ok(set t | t in db.tasks.Values && t.projectId == projectId)
  }

  /** `getTasksByAssignee`: the user must exist. */
  function GetTasksByAssignee(db: Db, assigneeId: int): (r: Result<set<Task>>)
    ensures r.Err? <==> assigneeId !in db.users
    ensures r.Err? ==> r.error == NotFound("User", assigneeId)
    ensures r.Ok? ==> forall k :: k in db.tasks ==> (db.tasks[k] in r.value <==> db.tasks[k].assigneeId == Some(assigneeId))
    ensures r.Ok? ==> forall t :: t in r.value ==> t in db.tasks.Values
  {
    if assigneeId !in db.users then Err(NotFound("User", assigneeId))
    else Ok(set t | t in db.tasks.Values && t.assigneeId == Some(assigneeId))
  }

  /** `getTasksByStatus`: never fails; a task stored with a null status is in no answer. */
  function GetTasksByStatus(db: Db, status: TaskStatus): (r: set<Task>)
    ensures forall k :: k in db.tasks ==> (db.tasks[k] in r <==> db.tasks[k].status == Some(status))
    ensures forall t :: t in r ==> t in db.tasks.Values
  {
    set t | t in db.tasks.Values && t.status == Some(status)
  }

  /** `createTask`. The project is looked up first, then the assignee if one is
      named; `newId` is the id the database generates. */
  function CreateTask(db: Db, dto: TaskCreateDTO, newId: int): (r: Result<Saved<Task>>)
    requires newId !in db.tasks
    ensures r.Ok? <==> dto.projectId.Some? && dto.projectId.value in db.projects
                       && (dto.assigneeId.None? || dto.assigneeId.value in db.users)
    ensures dto.projectId.None? ==> r == Err(NullId)
    ensures dto.projectId.Some? && dto.projectId.value !in db.projects ==> r == Err(NotFound("Project", dto.projectId.value))
    ensures (dto.projectId.Some? && dto.projectId.value in db.projects && dto.assigneeId.Some? && dto.assigneeId.value !in db.users)
              ==> r == Err(NotFound("User", dto.assigneeId.value))
    ensures r.Ok? ==>
              var t := r.value.record;
              && t.id == newId && t.title == dto.title && t.description == dto.description
              && t.status == dto.status && t.priority == dto.priority && t.dueDate == dto.dueDate
              && Some(t.projectId) == dto.projectId && t.assigneeId == dto.assigneeId
    ensures r.Ok? ==> r.value.db == db.(tasks := db.tasks[newId := r.value.record])
  {
    match dto.projectId
    case None => Err(NullId)
    case Some(projectId) =>
      if projectId !in db.projects then Err(NotFound("Project", projectId))
      else if dto.assigneeId.Some? && dto.assigneeId.value !in db.users then Err(NotFound("User", dto.assigneeId.value))
      else
        var t := Task(newId, dto.title, dto.description, dto.status, dto.priority, dto.dueDate, projectId, dto.assigneeId);
        Ok(Saved(db.(tasks := db.tasks[newId := t]), t))
  }

  /** `updateTask`: each present field replaces the stored one. A present
      assignee must exist; an absent one keeps the current assignee. */
  function UpdateTask(db: Db, id: int, dto: TaskUpdateDTO): (r: Result<Saved<Task>>)
    ensures r.Ok? <==> id in db.tasks && (dto.assigneeId.None? || dto.assigneeId.value in db.users)
    ensures id !in db.tasks ==> r == Err(NotFound("Task", id))
    ensures (id in db.tasks && dto.assigneeId.Some? && dto.assigneeId.value !in db.users)
              ==> r == Err(NotFound("User", dto.assigneeId.value))
    ensures r.Ok? ==>
              var before := db.tasks[id];
              var t := r.value.record;
              && t.id == before.id && t.projectId == before.projectId
              && (dto.title.Some? ==> t.title == dto.title) && (dto.title.None? ==> t.title == before.title)
              && (dto.description.Some? ==> t.description == dto.description)
              && (dto.description.None? ==> t.description == before.description)
              && (dto.status.Some? ==> t.status == dto.status) && (dto.status.None? ==> t.status == before.status)
              && (dto.priority.Some? ==> t.priority == dto.priority) && (dto.priority.None? ==> t.priority == before.priority)
              && (dto.dueDate.Some? ==> t.dueDate == dto.dueDate) && (dto.dueDate.None? ==> t.dueDate == before.dueDate)
              && (dto.assigneeId.Some? ==> t.assigneeId == dto.assigneeId) && (dto.assigneeId.None? ==> t.assigneeId == before.assigneeId)
    ensures r.Ok? ==> r.value.db == db.(tasks := db.tasks[id := r.value.record])
  {
    if id !in db.tasks then Err(NotFound("Task", id))
    else if dto.assigneeId.Some? && dto.assigneeId.value !in db.users then Err(NotFound("User", dto.assigneeId.value))
    else
      var before := db.tasks[id];
      var t := before.(
        title := if dto.title.Some? then dto.title else before.title,
        description := if dto.description.Some? then dto.description else before.description,
        status := if dto.status.Some? then dto.status else before.status,
        priority := if dto.priority.Some? then dto.priority else before.priority,
        dueDate := if dto.dueDate.Some? then dto.dueDate else before.dueDate,
        assigneeId := if dto.assigneeId.Some? then dto.assigneeId else before.assigneeId);
      Ok(Saved(db.(tasks := db.tasks[id := t]), t))
  }

  /** `deleteTask`: removes exactly the one task. */
  function DeleteTask(db: Db, id: int): (r: Result<Db>)
    ensures r.Err? <==> id !in db.tasks
    ensures r.Err? ==> r.error == NotFound("Task", id)
    ensures r.Ok? ==> r.value.users == db.users && r.value.projects == db.projects
    ensures r.Ok? ==> r.value.tasks.Keys == db.tasks.Keys - {id}
                      && forall k :: k in r.value.tasks ==> r.value.tasks[k] == db.tasks[k]
  {
    if id !in db.tasks then Err(NotFound("Task", id)) else Ok(db.(tasks := db.tasks - {id}))
  }

  /** A task, once assigned, stays assigned: no update clears the assignee. */
  lemma UpdateNeverUnassigns(db: Db, id: int, dto: TaskUpdateDTO)
    requires id in db.tasks && db.tasks[id].assigneeId.Some?
    ensures UpdateTask(db, id, dto).Ok? ==> UpdateTask(db, id, dto).value.record.assigneeId.Some?
  {
  }

  /** Repeating an update changes nothing further. */
  lemma UpdateTaskIdempotent(db: Db, id: int, dto: TaskUpdateDTO)
    requires UpdateTask(db, id, dto).Ok?
    ensures var s := UpdateTask(db, id, dto).value;
            UpdateTask(s.db, id, dto) == Ok(s)
  {
    var s := UpdateTask(db, id, dto).value;
    var again := UpdateTask(s.db, id, dto);
    assert s.db.tasks[id] == s.record;
    assert again.Ok?;
    assert again.value.record == s.record;
    assert s.db.tasks[id := s.record] == s.db.tasks;
  }

  /** An update with every field absent stores the task unchanged. */
  lemma EmptyTaskUpdateChangesNothing(db: Db, id: int)
    requires id in db.tasks
    ensures UpdateTask(db, id, TaskUpdateDTO(None, None, None, None, None, None)) == Ok(Saved(db, db.tasks[id]))
  {
    var r := UpdateTask(db, id, TaskUpdateDTO(None, None, None, None, None, None));
    assert r.value.record == db.tasks[id];
    assert db.tasks[id := db.tasks[id]] == db.tasks;
  }

  /** Creating, updating and deleting tasks keep every record under its own id
      and every reference resolvable. */
  lemma TaskWritesPreserveIntegrity(db: Db, dto: TaskCreateDTO, newId: int, id: int, update: TaskUpdateDTO)
    requires IdsConsistent(db) && ReferencesResolve(db) && newId !in db.tasks
    ensures CreateTask(db, dto, newId).Ok? ==>
              IdsConsistent(CreateTask(db, dto, newId).value.db) && ReferencesResolve(CreateTask(db, dto, newId).value.db)
    ensures UpdateTask(db, id, update).Ok? ==>
              IdsConsistent(UpdateTask(db, id, update).value.db) && ReferencesResolve(UpdateTask(db, id, update).value.db)
    ensures DeleteTask(db, id).Ok? ==>
              IdsConsistent(DeleteTask(db, id).value) && ReferencesResolve(DeleteTask(db, id).value)
  {
  }

  /** A body that leaves priority out and sends `"status": null` creates a task
      with priority MEDIUM and no status, which no status query then finds. */
  lemma ExplicitNullStatusIsStored(db: Db, title: Option<string>, description: Option<string>, dueDate: Option<Date>,
                                   projectId: int, assigneeId: Option<int>, newId: int)
    requires newId !in db.tasks
    requires projectId in db.projects && (assigneeId.None? || assigneeId.value in db.users)
    ensures var r := CreateTask(db, BindTaskCreate(title, description, JsonNull, Omitted, dueDate, Some(projectId), assigneeId), newId);
            && r.Ok? && r.value.record.status.None? && r.value.record.priority == Some(MEDIUM)
            && forall status :: r.value.record !in GetTasksByStatus(r.value.db, status)
  {
    var r := CreateTask(db, BindTaskCreate(title, description, JsonNull, Omitted, dueDate, Some(projectId), assigneeId), newId);
    forall status
      ensures r.value.record !in GetTasksByStatus(r.value.db, status)
    {
      assert r.value.record.status != Some(status);
    }
  }
}
