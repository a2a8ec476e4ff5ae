/** The `/users` routes (backend/src/routes/users.router.ts): registration with a unique
    e-mail address, login by e-mail and password, listing, lookup, update and deletion.
    No route ever returns a password. */
module UsersRouter {
  import opened Wrappers
  import opened Model
  import opened Decimal
  import opened Orm

  /** The row holding e-mail address `email`, if any. Unique addresses make it the only one. */
  function FindByEmail(users: map<int, User>, email: string): (r: Option<int>)
    requires EmailsUnique(users)
    ensures r.Some? ==> r.value in users && users[r.value].email == email
    ensures r.None? ==> forall id :: id in users ==> users[id].email != email
    ensures r.Some? ==> forall id :: id in users && users[id].email == email ==> id == r.value
  {
    if exists id :: id in users && users[id].email == email then
      var id :| id in users && users[id].email == email; Some(id)
    else None
  }

  /** Body of POST /register. */
  datatype RegisterBody = RegisterBody(name: Option<string>, email: Option<string>, password: Option<string>, role: Option<string>)

  function NewUser(id: int, body: RegisterBody, now: int): User
    requires body.name.Some? && body.email.Some? && body.password.Some?
  {
    User(id, body.name.value, body.email.value, body.password.value, OrDefault(body.role, DefaultRole), now)
  }

  /** A registration without a role makes a Technician; the stored password is the one given. */
  lemma NewUserDefaults(id: int, name: string, email: string, password: string, now: int)
    ensures var u := NewUser(id, RegisterBody(Some(name), Some(email), Some(password), None), now);
      u.role == "Technician" && u.password == password && u.email == email && u.name == name
  {
  }

  /** POST /register: an address already on file is refused with 400; a body missing the
      address, name or password makes a database call throw; otherwise the new user goes
      in under the next id and comes back without its password. */
  method Register(db: Database, body: RegisterBody, now: int) returns (res: Response<PublicUser>)
    requires db.Valid()
    modifies db`users, db`nextUserId
    ensures db.Valid()
    ensures res.Failure? ==> db.users == old(db.users) && db.nextUserId == old(db.nextUserId)
    ensures body.email.None? ==> res == Failure(ServerError, "Failed to register user")
    ensures body.email.Some? && FindByEmail(old(db.users), body.email.value).Some? ==>
      res == Failure(BadRequest, "User with this email already exists")
    ensures body.email.Some? && FindByEmail(old(db.users), body.email.value).None? && (body.name.None? || body.password.None?) ==>
      res == Failure(ServerError, "Failed to register user")
    ensures body.email.Some? && FindByEmail(old(db.users), body.email.value).None? && body.name.Some? && body.password.Some? ==>
      && db.users == old(db.users)[old(db.nextUserId) := NewUser(old(db.nextUserId), body, now)]
      && old(db.nextUserId) !in old(db.users)
      && db.nextUserId == old(db.nextUserId) + 1
      && res == Success(Created, WithoutPassword(NewUser(old(db.nextUserId), body, now)))
  {
    if body.email.None? {
      return Failure(ServerError, "Failed to register user");
    }
    if FindByEmail(db.users, body.email.value).Some? {
      return Failure(BadRequest, "User with this email already exists");
    }
    if body.name.None? || body.password.None? {
      return Failure(ServerError, "Failed to register user");
    }
    var u := NewUser(db.nextUserId, body, now);
    db.users := db.users[u.id := u];
    db.nextUserId := db.nextUserId + 1;
    return Success(Created, WithoutPassword(u));
  }

  /** The body of a successful login. */
  datatype LoginReply = LoginReply(message: string, user: PublicUser)

  /** POST /login: the same 401 for an unknown address and a wrong password, so the reply
      does not reveal which addresses are on file. */
  method Login(db: Database, email: Option<string>, password: Option<string>) returns (res: Response<LoginReply>)
    requires db.Valid()
    ensures email.None? ==> res == Failure(ServerError, "Failed to login")
    ensures res.Failure? && email.Some? ==> res == Failure(Unauthorized, "Invalid email or password")
    ensures res.Success? <==>
      email.Some? && exists id :: id in db.users && db.users[id].email == email.value && password == Some(db.users[id].password)
    ensures res.Success? ==>
      && res.code == Ok && res.value.message == "Login successful"
      && exists id :: id in db.users && res.value.user == WithoutPassword(db.users[id])
           && db.users[id].email == email.value && password == Some(db.users[id].password)
  {
    if email.None? {
      return Failure(ServerError, "Failed to login");
    }
    var found := FindByEmail(db.users, email.value);
    if found.None? {
      return Failure(Unauthorized, "Invalid email or password");
    }
    var u := db.users[found.value];
    if password != Some(u.password) {
      return Failure(Unauthorized, "Invalid email or password");
    }
    return Success(Ok, LoginReply("Login successful", WithoutPassword(u)));
  }

  /** The number of tasks assigned to user `id` (the listing's `_count.tasks`). */
  function AssignedCount(tasks: map<int, Task>, id: int): nat {
    |set k | k in tasks && tasks[k].userId == Some(id)|
  }

  datatype UserRow = UserRow(user: PublicUser, taskCount: nat)

  function IdRank(u: User): int { u.id }

  /** The listing rows of `found`, in its order. */
  function RowsOf(found: seq<User>, tasks: map<int, Task>): (rows: seq<UserRow>)
    ensures |rows| == |found|
    ensures forall i :: 0 <= i < |found| ==> rows[i] == UserRow(WithoutPassword(found[i]), AssignedCount(tasks, found[i].id))
  {
    seq(|found|, i requires 0 <= i < |found| => UserRow(WithoutPassword(found[i]), AssignedCount(tasks, found[i].id)))
  }

  /** Rows built from a listing that holds every user, and only users, name every user
      and only users. */
  lemma RowsOfListing(users: map<int, User>, tasks: map<int, Task>, found: seq<User>, rows: seq<UserRow>)
    requires rows == RowsOf(found, tasks)
    requires forall id :: id in users ==> users[id].id == id
    requires forall i :: 0 <= i < |found| ==> found[i] in users.Values
    requires forall id :: id in users ==> users[id] in found
    ensures forall i :: 0 <= i < |rows| ==>
      rows[i].user.id in users && rows[i] == UserRow(WithoutPassword(users[rows[i].user.id]), AssignedCount(tasks, rows[i].user.id))
    ensures forall id :: id in users ==> exists i :: 0 <= i < |rows| && rows[i].user == WithoutPassword(users[id])
  {
    forall i | 0 <= i < |rows|
      ensures rows[i].user.id in users &&
        rows[i] == UserRow(WithoutPassword(users[rows[i].user.id]), AssignedCount(tasks, rows[i].user.id))
    {
      var id := KeyOfValue(users, found[i]);
      assert found[i].id == id;
      assert rows[i] == UserRow(WithoutPassword(users[id]), AssignedCount(tasks, id));
    }
    forall id | id in users ensures exists i :: 0 <= i < |rows| && rows[i].user == WithoutPassword(users[id]) {
      var i :| 0 <= i < |found| && found[i] == users[id];
      assert rows[i].user == WithoutPassword(users[id]);
    }
  }

  /** GET /: every user once, without password, with the number of assigned tasks. */
  method ListUsers(db: Database) returns (res: Response<seq<UserRow>>)
    requires db.Valid()
    ensures res.Success? && res.code == Ok
    ensures |res.value| == |db.users|
    ensures forall i :: 0 <= i < |res.value| ==>
      res.value[i].user.id in db.users && res.value[i] == UserRow(WithoutPassword(db.users[res.value[i].user.id]), AssignedCount(db.tasks, res.value[i].user.id))
    ensures forall id :: id in db.users ==> exists i :: 0 <= i < |res.value| && res.value[i].user == WithoutPassword(db.users[id])
  {
    var found := FindMany(db.users, (u: User) => true, IdRank);
    assert MatchingKeys(db.users, (u: User) => true) == db.users.Keys;
    var rows := RowsOf(found, db.tasks);
    RowsOfListing(db.users, db.tasks, found, rows);
    return Success(Ok, rows);
  }

  datatype UserDetail = UserDetail(user: PublicUser, tasks: seq<Task>)

  /** GET /:id: the user without password, with every task assigned to it. */
  method GetUser(db: Database, idParam: string) returns (res: Response<UserDetail>)
    requires db.Valid()
    ensures ParseInt(idParam).None? ==> res == Failure(ServerError, "Failed to fetch user")
    ensures ParseInt(idParam).Some? && ParseInt(idParam).value !in db.users ==> res == Failure(NotFound, "User not found")
    ensures ParseInt(idParam).Some? && ParseInt(idParam).value in db.users ==>
      var id := ParseInt(idParam).value;
      && res.Success? && res.code == Ok && res.value.user == WithoutPassword(db.users[id])
      && (forall t :: t in res.value.tasks ==> t in db.tasks.Values && t.userId == Some(id))
      && (forall k :: k in db.tasks && db.tasks[k].userId == Some(id) ==> db.tasks[k] in res.value.tasks)
      && |res.value.tasks| == AssignedCount(db.tasks, id)
  {
    var id := ParseInt(idParam);
    if id.None? {
      return Failure(ServerError, "Failed to fetch user");
    }
    if id.value !in db.users {
      return Failure(NotFound, "User not found");
    }
    var uid := id.value;
    var tasks := FindMany(db.tasks, (t: Task) => t.userId == Some(uid), (t: Task) => t.id);
    assert MatchingKeys(db.tasks, (t: Task) => t.userId == Some(uid)) == set k | k in db.tasks && db.tasks[k].userId == Some(uid);
    return Success(Ok, UserDetail(WithoutPassword(db.users[uid]), tasks));
  }

  /** Body of PUT /:id: only name, e-mail and role can change. */
  datatype UserUpdate = UserUpdate(name: Option<string>, email: Option<string>, role: Option<string>)

  function ApplyUpdate(u: User, up: UserUpdate): User {
    u.(name := up.name.GetOr(u.name), email := up.email.GetOr(u.email), role := up.role.GetOr(u.role))
  }

  /** The password and creation time are out of the update's reach. */
  lemma ApplyUpdateKeepsPassword(u: User, up: UserUpdate)
    ensures ApplyUpdate(u, up).password == u.password
    ensures ApplyUpdate(u, up).id == u.id && ApplyUpdate(u, up).createdAt == u.createdAt
  {
  }

  /** The address `up` would give row `id` is held by another row. */
  predicate EmailClash(users: map<int, User>, id: int, up: UserUpdate) {
    up.email.Some? && exists other :: other in users && other != id && users[other].email == up.email.value
  }

  /** PUT /:id: a non-numeric or unknown id, or an address another user holds, makes the
      update throw. */
  method UpdateUser(db: Database, idParam: string, up: UserUpdate) returns (res: Response<PublicUser>)
    requires db.Valid()
    modifies db`users
    ensures db.Valid()
    ensures (ParseInt(idParam).None? || ParseInt(idParam).value !in old(db.users)
        || EmailClash(old(db.users), ParseInt(idParam).value, up)) ==>
      res == Failure(ServerError, "Failed to update user") && db.users == old(db.users)
    ensures (ParseInt(idParam).Some? && ParseInt(idParam).value in old(db.users)
        && !EmailClash(old(db.users), ParseInt(idParam).value, up)) ==>
      var id := ParseInt(idParam).value;
      && db.users == old(db.users)[id := ApplyUpdate(old(db.users)[id], up)]
      && res == Success(Ok, WithoutPassword(db.users[id]))
  {
    var id := ParseInt(idParam);
    if id.None? || id.value !in db.users || EmailClash(db.users, id.value, up) {
      return Failure(ServerError, "Failed to update user");
    }
    var u := ApplyUpdate(db.users[id.value], up);
    db.users := db.users[id.value := u];
    return Success(Ok, WithoutPassword(u));
  }

  /** DELETE /:id. */
  method DeleteUser(db: Database, idParam: string) returns (res: Response<string>)
    requires db.Valid()
    modifies db`users
    ensures db.Valid()
    ensures ParseInt(idParam).None? || ParseInt(idParam).value !in old(db.users) ==>
      res == Failure(ServerError, "Failed to delete user") && db.users == old(db.users)
    ensures ParseInt(idParam).Some? && ParseInt(idParam).value in old(db.users) ==>
      res == Success(Ok, "User deleted successfully") && db.users == old(db.users) - {ParseInt(idParam).value}
  {
    var id := ParseInt(idParam);
    if id.None? || id.value !in db.users {
      return Failure(ServerError, "Failed to delete user");
    }
    db.users := db.users - {id.value};
    return Success(Ok, "User deleted successfully");
  }

  /** A user registered with some address and password can log in with exactly those. */
  lemma RegisterThenLogin(users: map<int, User>, id: int, body: RegisterBody, now: int)
    requires EmailsUnique(users)
    requires body.name.Some? && body.email.Some? && body.password.Some?
    requires id !in users && FindByEmail(users, body.email.value).None?
    ensures var users' := users[id := NewUser(id, body, now)];
      && EmailsUnique(users')
      && FindByEmail(users', body.email.value) == Some(id)
      && users'[id].password == body.password.value
  {
    var users' := users[id := NewUser(id, body, now)];
    assert EmailsUnique(users');
    assert id in users' && users'[id].email == body.email.value;
    var r := FindByEmail(users', body.email.value);
    assert r.Some?;
  }
}
