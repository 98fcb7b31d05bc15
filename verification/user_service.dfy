/** User records: lookup, a create guarded by the username and email unique
    checks, a partial update that may change the email but never the username,
    and a delete. Passwords are stored exactly as supplied. */
module UserService {
  import opened Outcomes
  import opened Entities
  import opened Dtos

  function UsernameExistsMessage(username: string): string {
    "Username already exists: " + username
  }

  function EmailExistsMessage(email: string): string {
    "Email already exists: " + email
  }

  /** `findByEmail(email)` finds a user whose id differs from `id`. */
  predicate EmailHeldByOther(users: map<int, User>, email: string, id: int) {
    exists k :: k in users && users[k].email == email && users[k].id != id
  }

  /** `getAllUsers`: the public projection of every stored user. */
  function GetAllUsers(db: Db): (r: set<UserView>)
    ensures forall k :: k in db.users ==> ViewOf(db.users[k]) in r
    ensures forall v :: v in r ==> exists k :: k in db.users && v == ViewOf(db.users[k])
  {
    set k | k in db.users :: ViewOf(db.users[k])
  }

  /** `getUserById`. */
  function GetUserById(db: Db, id: int): (r: Result<UserView>)
    ensures r.Ok? <==> id in db.users
    ensures r.Ok? ==> r.value == ViewOf(db.users[id])
    ensures r.Err? ==> r.error == NotFound("User", id)
  {
    if id in db.users then Ok(ViewOf(db.users[id])) else Err(NotFound("User", id))
  }

  /** `createUser`: the username is checked before the email. */
  function CreateUser(db: Db, dto: UserCreateDTO, newId: int): (r: Result<Saved<User>>)
    requires newId !in db.users
    ensures r.Ok? <==> !UsernameTaken(db.users, dto.username) && !EmailTaken(db.users, dto.email)
    ensures UsernameTaken(db.users, dto.username) ==> r == Err(DuplicateResource(UsernameExistsMessage(dto.username)))
    ensures (!UsernameTaken(db.users, dto.username) && EmailTaken(db.users, dto.email))
              ==> r == Err(DuplicateResource(EmailExistsMessage(dto.email)))
    ensures r.Ok? ==> r.value.record == User(newId, dto.username, dto.email, dto.password, dto.firstName, dto.lastName, dto.role)
    ensures r.Ok? ==> r.value.db == db.(users := db.users[newId := r.value.record])
  {
    if UsernameTaken(db.users, dto.username) then Err(DuplicateResource(UsernameExistsMessage(dto.username)))
    else if EmailTaken(db.users, dto.email) then Err(DuplicateResource(EmailExistsMessage(dto.email)))
    else
      var u := User(newId, dto.username, dto.email, dto.password, dto.firstName, dto.lastName, dto.role);
      Ok(Saved(db.(users := db.users[newId := u]), u))
  }

  /** `updateUser`: a present field replaces the stored one; a new email must
      not belong to another user. */
  function UpdateUser(db: Db, id: int, dto: UserUpdateDTO): (r: Result<Saved<User>>)
    ensures r.Ok? <==> id in db.users && (dto.email.None? || !EmailHeldByOther(db.users, dto.email.value, id))
    ensures id !in db.users ==> r == Err(NotFound("User", id))
    ensures (id in db.users && dto.email.Some? && EmailHeldByOther(db.users, dto.email.value, id))
              ==> r == Err(DuplicateResource(EmailExistsMessage(dto.email.value)))
    ensures r.Ok? ==>
              var before := db.users[id];
              var u := r.value.record;
              && u.id == before.id && u.username == before.username
              && (dto.email.Some? ==> u.email == dto.email.value) && (dto.email.None? ==> u.email == before.email)
              && (dto.password.Some? ==> u.password == dto.password.value) && (dto.password.None? ==> u.password == before.password)
              && (dto.firstName.Some? ==> u.firstName == dto.firstName) && (dto.firstName.None? ==> u.firstName == before.firstName)
              && (dto.lastName.Some? ==> u.lastName == dto.lastName) && (dto.lastName.None? ==> u.lastName == before.lastName)
              && (dto.role.Some? ==> u.role == dto.role.value) && (dto.role.None? ==> u.role == before.role)
    ensures r.Ok? ==> r.value.db == db.(users := db.users[id := r.value.record])
  {
    if id !in db.users then Err(NotFound("User", id))
    else if dto.email.Some? && EmailHeldByOther(db.users, dto.email.value, id) then
      Err(DuplicateResource(EmailExistsMessage(dto.email.value)))
    else
      var before := db.users[id];
      var u := before.(
        email := dto.email.GetOr(before.email),
        password := dto.password.GetOr(before.password),
        firstName := if dto.firstName.Some? then dto.firstName else before.firstName,
        lastName := if dto.lastName.Some? then dto.lastName else before.lastName,
        role := dto.role.GetOr(before.role));
      Ok(Saved(db.(users := db.users[id := u]), u))
  }

  /** `deleteUser`: removes exactly the one user. */
  function DeleteUser(db: Db, id: int): (r: Result<Db>)
    ensures r.Err? <==> id !in db.users
    ensures r.Err? ==> r.error == NotFound("User", id)
    ensures r.Ok? ==> r.value.projects == db.projects && r.value.tasks == db.tasks
    ensures r.Ok? ==> r.value.users.Keys == db.users.Keys - {id}
                      && forall k :: k in r.value.users ==> r.value.users[k] == db.users[k]
  {
    if id !in db.users then Err(NotFound("User", id)) else Ok(db.(users := db.users - {id}))
  }

  /** Re-submitting one's own current email is accepted. */
  lemma OwnEmailAccepted(db: Db, id: int, dto: UserUpdateDTO)
    requires IdsConsistent(db) && EmailsUnique(db.users)
    requires id in db.users && dto.email == Some(db.users[id].email)
    ensures UpdateUser(db, id, dto).Ok?
  {
  }

  /** Creating a user keeps usernames and emails unique. */
  lemma CreateUserKeepsUnique(db: Db, dto: UserCreateDTO, newId: int)
    requires newId !in db.users
    requires IdsConsistent(db) && UsernamesUnique(db.users) && EmailsUnique(db.users)
    ensures CreateUser(db, dto, newId).Ok? ==>
              var users := CreateUser(db, dto, newId).value.db.users;
              IdsConsistent(CreateUser(db, dto, newId).value.db) && UsernamesUnique(users) && EmailsUnique(users)
  {
    if CreateUser(db, dto, newId).Ok? {
      var users := CreateUser(db, dto, newId).value.db.users;
      forall a, b | a in users && b in users && users[a].username == users[b].username
        ensures a == b
      {
        if a != newId && b != newId { assert users[a] == db.users[a] && users[b] == db.users[b]; }
      }
      forall a, b | a in users && b in users && users[a].email == users[b].email
        ensures a == b
      {
        if a != newId && b != newId { assert users[a] == db.users[a] && users[b] == db.users[b]; }
      }
    }
  }

  /** Updating a user keeps usernames and emails unique. */
  lemma UpdateUserKeepsUnique(db: Db, id: int, dto: UserUpdateDTO)
    requires IdsConsistent(db) && UsernamesUnique(db.users) && EmailsUnique(db.users)
    ensures UpdateUser(db, id, dto).Ok? ==>
              var users := UpdateUser(db, id, dto).value.db.users;
              IdsConsistent(UpdateUser(db, id, dto).value.db) && UsernamesUnique(users) && EmailsUnique(users)
  {
    if UpdateUser(db, id, dto).Ok? {
      var users := UpdateUser(db, id, dto).value.db.users;
      forall a, b | a in users && b in users && users[a].username == users[b].username
        ensures a == b
      {
        assert users[a].username == db.users[a].username && users[b].username == db.users[b].username;
      }
      forall a, b | a in users && b in users && users[a].email == users[b].email
        ensures a == b
      {
        if a != id && b != id { assert users[a] == db.users[a] && users[b] == db.users[b]; }
      }
    }
  }
}
