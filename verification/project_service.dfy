/** Project records: lookups, a create that needs an existing owner, a
    partial update of name and description, and a delete. */
module ProjectService {
  import opened Outcomes
  import opened Entities
  import opened Dtos

  /** `getProjectById`. */
  function GetProjectById(db: Db, id: int): (r: Result<Project>)
    ensures r.Ok? <==> id in db.projects
    ensures r.Ok? ==> r.value == db.projects[id]
    ensures r.Err? ==> r.error == NotFound("Project", id)
  {
    if id in db.projects then Ok(db.projects[id]) else Err(NotFound("Project", id))
  }

  /** `getProjectsByOwner`: the owner must exist; list order is not modelled. */
  function GetProjectsByOwner(db: Db, ownerId: int): (r: Result<set<Project>>)
    ensures r.Err? <==> ownerId !in db.users
    ensures r.Err? ==> r.error == NotFound("User", ownerId)
    ensures r.Ok? ==> forall k :: k in db.projects ==> (db.projects[k] in r.value <==> db.projects[k].ownerId == ownerId)
    ensures r.Ok? ==> forall p :: p in r.value ==> p in db.projects.Values
  {
    if ownerId !in db.users then Err(NotFound("User", ownerId))
    else Ok(set p | p in db.projects.Values && p.ownerId == ownerId)
  }

  /** `createProject`: stores exactly the requested name and description under
      the given owner; `newId` is the id the database generates. */
  function CreateProject(db: Db, dto: ProjectCreateDTO, ownerId: int, newId: int): (r: Result<Saved<Project>>)
    requires newId !in db.projects
    ensures r.Ok? <==> ownerId in db.users
    ensures r.Err? ==> r.error == NotFound("User", ownerId)
    ensures r.Ok? ==> r.value.record.id == newId && r.value.record.name == dto.name
                      && r.value.record.description == dto.description && r.value.record.ownerId == ownerId
    ensures r.Ok? ==> r.value.db == db.(projects := db.projects[newId := r.value.record])
  {
    if ownerId !in db.users then Err(NotFound("User", ownerId))
    else
      var p := Project(newId, dto.name, dto.description, ownerId);
      Ok(Saved(db.(projects := db.projects[newId := p]), p))
  }

  /** `updateProject`: a present name or description replaces the stored one;
      the owner and id never change. */
  function UpdateProject(db: Db, id: int, dto: ProjectUpdateDTO): (r: Result<Saved<Project>>)
    ensures r.Ok? <==> id in db.projects
    ensures r.Err? ==> r.error == NotFound("Project", id)
    ensures r.Ok? ==>
              var before := db.projects[id];
              var p := r.value.record;
              && p.id == before.id && p.ownerId == before.ownerId
              && (dto.name.Some? ==> p.name == dto.name.value) && (dto.name.None? ==> p.name == before.name)
              && (dto.description.Some? ==> p.description == dto.description)
              && (dto.description.None? ==> p.description == before.description)
    ensures r.Ok? ==> r.value.db == db.(projects := db.projects[id := r.value.record])
  {
    if id !in db.projects then Err(NotFound("Project", id))
    else
      var before := db.projects[id];
      var p := before.(name := dto.name.GetOr(before.name),
                       description := if dto.description.Some? then dto.description else before.description);
      Ok(Saved(db.(projects := db.projects[id := p]), p))
  }

  /** `deleteProject`: removes exactly the one project. */
  function DeleteProject(db: Db, id: int): (r: Result<Db>)
    ensures r.Err? <==> id !in db.projects
    ensures r.Err? ==> r.error == NotFound("Project", id)
    ensures r.Ok? ==> r.value.users == db.users && r.value.tasks == db.tasks
    ensures r.Ok? ==> r.value.projects.Keys == db.projects.Keys - {id}
                      && forall k :: k in r.value.projects ==> r.value.projects[k] == db.projects[k]
  {
    if id !in db.projects then Err(NotFound("Project", id)) else Ok(db.(projects := db.projects - {id}))
  }

  /** An update with both fields absent stores the project unchanged, and a
      repeated update changes nothing further. */
  lemma UpdateProjectIdempotent(db: Db, id: int, dto: ProjectUpdateDTO)
    requires id in db.projects
    ensures UpdateProject(db, id, ProjectUpdateDTO(None, None)) == Ok(Saved(db, db.projects[id]))
    ensures var s := UpdateProject(db, id, dto).value;
            UpdateProject(s.db, id, dto) == Ok(s)
  {
    assert db.projects[id := db.projects[id]] == db.projects;
    var s := UpdateProject(db, id, dto).value;
    assert s.db.projects[id] == s.record;
    assert UpdateProject(s.db, id, dto).value.record == s.record;
    assert s.db.projects[id := s.record] == s.db.projects;
  }

  /** Creating and updating projects keep ids and references intact; deleting
      keeps them intact when no task belongs to the project (what happens to
      such tasks is decided by the persistence mapping, not by this service). */
  lemma ProjectWritesPreserveIntegrity(db: Db, dto: ProjectCreateDTO, ownerId: int, newId: int, id: int, update: ProjectUpdateDTO)
    requires IdsConsistent(db) && ReferencesResolve(db) && newId !in db.projects
    ensures CreateProject(db, dto, ownerId, newId).Ok? ==>
              IdsConsistent(CreateProject(db, dto, ownerId, newId).value.db)
              && ReferencesResolve(CreateProject(db, dto, ownerId, newId).value.db)
    ensures UpdateProject(db, id, update).Ok? ==>
              IdsConsistent(UpdateProject(db, id, update).value.db) && ReferencesResolve(UpdateProject(db, id, update).value.db)
    ensures DeleteProject(db, id).Ok? && (forall k :: k in db.tasks ==> db.tasks[k].projectId != id) ==>
              IdsConsistent(DeleteProject(db, id).value) && ReferencesResolve(DeleteProject(db, id).value)
  {
  }
}
