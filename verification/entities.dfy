/** The persisted records and the store that holds them.
    Each repository is a map from generated id to record. */
module Entities {
  import opened Outcomes

  datatype Role = ADMIN | USER

  /** `Role.name()`, the string embedded in an access token. */
  function RoleName(r: Role): string {
    match r
    case ADMIN => "ADMIN"
    case USER => "USER"
  }

  datatype TaskStatus = TODO | IN_PROGRESS | DONE

  datatype Priority = LOW | MEDIUM | HIGH

  /** A `LocalDate`, as a day number. */
  type Date = int

  /** `password` holds whatever the service stored; login compares it through the encoder. */
  datatype User = User(
    id: int,
    username: string,
    email: string,
    password: string,
    firstName: Option<string>,
    lastName: Option<string>,
    role: Role)

  datatype Project = Project(
    id: int,
    name: string,
    description: Option<string>,
    ownerId: int)

  /** Title, status and priority are copied from the request as given, null
      included; any column constraint on them belongs to the persistence layer. */
  datatype Task = Task(
    id: int,
    title: Option<string>,
    description: Option<string>,
    status: Option<TaskStatus>,
    priority: Option<Priority>,
    dueDate: Option<Date>,
    projectId: int,
    assigneeId: Option<int>)

  /** The three repositories. */
  datatype Db = Db(users: map<int, User>, projects: map<int, Project>, tasks: map<int, Task>)

  /** A record as the repository's `save` returned it, with the store after the save. */
  datatype Saved<T> = Saved(db: Db, record: T)

  /** Every record is stored under its own id. */
  ghost predicate IdsConsistent(db: Db) {
    && (forall k :: k in db.users ==> db.users[k].id == k)
    && (forall k :: k in db.projects ==> db.projects[k].id == k)
    && (forall k :: k in db.tasks ==> db.tasks[k].id == k)
  }

  /** The foreign keys: every project's owner is a stored user, every task's
      project a stored project and its assignee, if any, a stored user. */
  ghost predicate ReferencesResolve(db: Db) {
    && (forall k :: k in db.projects ==> db.projects[k].ownerId in db.users)
    && (forall k :: k in db.tasks ==> db.tasks[k].projectId in db.projects)
    && (forall k :: k in db.tasks && db.tasks[k].assigneeId.Some? ==> db.tasks[k].assigneeId.value in db.users)
  }

  /** The unique constraint on usernames: no two stored users share one. */
  ghost predicate UsernamesUnique(users: map<int, User>) {
    forall a, b :: a in users && b in users && users[a].username == users[b].username ==> a == b
  }

  /** The unique constraint on email addresses. */
  ghost predicate EmailsUnique(users: map<int, User>) {
    forall a, b :: a in users && b in users && users[a].email == users[b].email ==> a == b
  }

  /** `existsByUsername`. */
  predicate UsernameTaken(users: map<int, User>, name: string) {
    exists k :: k in users && users[k].username == name
  }

  /** `existsByEmail`. */
  predicate EmailTaken(users: map<int, User>, email: string) {
    exists k :: k in users && users[k].email == email
  }

  /** `findByUsername`: the one user with that name, if any. */
  function FindByUsername(users: map<int, User>, name: string): (r: Option<User>)
    requires UsernamesUnique(users)
    ensures r.None? <==> !UsernameTaken(users, name)
    ensures r.Some? ==> r.value.username == name && r.value in users.Values
  {
    if UsernameTaken(users, name) then
      var k :| k in users && users[k].username == name;
      Some(users[k])
    else
      None
  }

  /** The public projection of a user (`UserResponseDTO`): everything but the password. */
  datatype UserView = UserView(
    id: int,
    username: string,
    email: string,
    firstName: Option<string>,
    lastName: Option<string>,
    role: Role)

  function ViewOf(u: User): UserView {
    UserView(u.id, u.username, u.email, u.firstName, u.lastName, u.role)
  }
}
