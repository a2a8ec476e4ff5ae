/** The `/tasks` routes (backend/src/routes/tasks.router.ts): listing with filters,
    lookup, creation with defaults and an equipment check, full update, the status
    transition the Kanban board drives, and deletion. */
module TasksRouter {
  import opened Wrappers
  import opened Model
  import opened Decimal
  import opened Orm

  /** Query string of GET /: each parameter absent (`None`) or a string. */
  datatype TaskQuery = TaskQuery(
    status: Option<string>,
    priority: Option<string>,
    team: Option<string>,
    equipmentId: Option<string>)

  /** The `where` object GET / hands to the database: one optional equality per column. */
  datatype TaskWhere = TaskWhere(
    status: Option<string>,
    priority: Option<string>,
    team: Option<string>,
    equipmentId: Option<int>)
  {
    predicate Selects(t: Task) {
      && (status.Some? ==> t.status == status.value)
      && (priority.Some? ==> t.priority == priority.value)
      && (team.Some? ==> t.team == team.value)
      && (equipmentId.Some? ==> t.equipmentId == equipmentId.value)
    }
  }

  /** What GET / promises of a listed task: it meets every filter the query supplies with
      a non-empty value, the filters taken together. */
  predicate MatchesQuery(q: TaskQuery, t: Task) {
    && (Truthy(q.status) ==> t.status == q.status.value)
    && (Truthy(q.priority) ==> t.priority == q.priority.value)
    && (Truthy(q.team) ==> t.team == q.team.value)
    && (Truthy(q.equipmentId) ==> ParseInt(q.equipmentId.value) == Some(t.equipmentId))
  }

  /** Newest first: `createdAt` never increases along `s`. */
  predicate NewestFirst(s: seq<Task>) {
    forall i, j :: 0 <= i < j < |s| ==> s[i].createdAt >= s[j].createdAt
  }

  function NewestRank(t: Task): int { -t.createdAt }

  lemma NewestRankOrder(s: seq<Task>)
    requires Ascending(s, NewestRank)
    ensures NewestFirst(s)
  {
    forall i, j | 0 <= i < j < |s| ensures s[i].createdAt >= s[j].createdAt {
      assert NewestRank(s[i]) <= NewestRank(s[j]);
    }
  }

  /** Of a listing of every task, newest first, no task outside the first `n` is newer
      than one inside them. */
  lemma NewestKept(tasks: map<int, Task>, all: seq<Task>, n: nat)
    requires forall id :: id in tasks ==> tasks[id].id == id
    requires forall k :: k in tasks ==> tasks[k] in all
    requires NewestFirst(all) && n <= |all|
    ensures forall k, i :: (&& k in tasks && 0 <= i < n
                            && forall j :: 0 <= j < n ==> all[j].id != k) ==>
      tasks[k].createdAt <= all[i].createdAt
  {
    forall k, i | k in tasks && 0 <= i < n && (forall j :: 0 <= j < n ==> all[j].id != k)
      ensures tasks[k].createdAt <= all[i].createdAt
    {
      var p :| 0 <= p < |all| && all[p] == tasks[k];
      assert all[p].id == k;
      if p < n {
        assert false;
      }
    }
  }

  /** Builds the `where` object field by field. `None` stands for a `where` whose
      equipment id is NaN, which the database rejects. */
  method BuildWhere(q: TaskQuery) returns (w: Option<TaskWhere>)
    ensures w.None? <==> Truthy(q.equipmentId) && ParseInt(q.equipmentId.value).None?
    ensures w.Some? ==> forall t :: w.value.Selects(t) <==> MatchesQuery(q, t)
  {
    var where := TaskWhere(None, None, None, None);
    if Truthy(q.status) {
      where := where.(status := q.status);
    }
    if Truthy(q.priority) {
      where := where.(priority := q.priority);
    }
    if Truthy(q.team) {
      where := where.(team := q.team);
    }
    if Truthy(q.equipmentId) {
      var id := ParseInt(q.equipmentId.value);
      if id.None? {
        return None;
      }
      where := where.(equipmentId := id);
    }
    return Some(where);
  }

  /** GET /: exactly the tasks that meet every supplied filter, each once, newest first. */
  method ListTasks(db: Database, q: TaskQuery) returns (res: Response<seq<Task>>)
    requires db.Valid()
    ensures res.Failure? <==> Truthy(q.equipmentId) && ParseInt(q.equipmentId.value).None?
    ensures res.Failure? ==> res == Failure(ServerError, "Failed to fetch tasks")
    ensures res.Success? ==> res.code == Ok
    ensures res.Success? ==> forall t :: t in res.value ==> t in db.tasks.Values && MatchesQuery(q, t)
    ensures res.Success? ==> forall id :: id in db.tasks && MatchesQuery(q, db.tasks[id]) ==> db.tasks[id] in res.value
    ensures res.Success? ==> |res.value| == |set id | id in db.tasks && MatchesQuery(q, db.tasks[id])|
    ensures res.Success? ==> NewestFirst(res.value)
  {
    var where := BuildWhere(q);
    if where.None? {
      return Failure(ServerError, "Failed to fetch tasks");
    }
    var w := where.value;
    var found := FindMany(db.tasks, (t: Task) => w.Selects(t), NewestRank);
    NewestRankOrder(found);
    assert MatchingKeys(db.tasks, (t: Task) => w.Selects(t))
        == set id | id in db.tasks && MatchesQuery(q, db.tasks[id]);
    return Success(Ok, found);
  }

  /** GET /:id. A non-numeric id makes the database call throw. */
  method GetTask(db: Database, idParam: string) returns (res: Response<Task>)
    requires db.Valid()
    ensures ParseInt(idParam).None? ==> res == Failure(ServerError, "Failed to fetch task")
    ensures ParseInt(idParam).Some? && ParseInt(idParam).value !in db.tasks ==> res == Failure(NotFound, "Task not found")
    ensures ParseInt(idParam).Some? && ParseInt(idParam).value in db.tasks ==>
      res == Success(Ok, db.tasks[ParseInt(idParam).value]) && res.value.id == ParseInt(idParam).value
  {
    var id := ParseInt(idParam);
    if id.None? {
      return Failure(ServerError, "Failed to fetch task");
    }
    if id.value !in db.tasks {
      return Failure(NotFound, "Task not found");
    }
    return Success(Ok, db.tasks[id.value]);
  }

  /** Body of POST /: the equipment id is a number; every other field may be absent. */
  datatype NewTaskBody = NewTaskBody(
    title: Option<string>,
    description: Option<string>,
    status: Option<string>,
    priority: Option<string>,
    team: Option<string>,
    equipmentId: int,
    userId: Option<int>)

  /** The row POST / inserts: empty or absent fields take their defaults, a user id of 0
      counts as none, and no completion date is set whatever the status. */
  function NewTask(id: int, body: NewTaskBody, now: int): Task
    requires body.title.Some?
  {
    Task(id, body.title.value, OrDefault(body.description, ""), OrDefault(body.status, Status.New.Name()),
      OrDefault(body.priority, Priority.Medium.Name()), OrDefault(body.team, DefaultTeam),
      now, None, body.equipmentId, OrNull(body.userId), now, now)
  }

  /** A body with only the required fields gives a New, Medium, Maintenance task with no
      description, no user and no completion date. */
  lemma NewTaskDefaults(id: int, title: string, equipmentId: int, now: int)
    ensures var t := NewTask(id, NewTaskBody(Some(title), None, None, None, None, equipmentId, None), now);
      && t.status == "New" && t.priority == "Medium" && t.team == "Maintenance"
      && t.description == "" && t.userId == None && t.completionDate == None
      && t.title == title && t.equipmentId == equipmentId && t.assignedDate == now
  {
  }

  /** Supplied non-empty values are kept; the completion date starts empty even for a
      task created directly as Repaired or Scrap. */
  lemma NewTaskKeepsSuppliedValues(id: int, body: NewTaskBody, now: int)
    requires body.title.Some?
    ensures var t := NewTask(id, body, now);
      && (Truthy(body.status) ==> t.status == body.status.value)
      && (Truthy(body.priority) ==> t.priority == body.priority.value)
      && (Truthy(body.team) ==> t.team == body.team.value)
      && (body.userId.Some? && body.userId.value != 0 ==> t.userId == body.userId)
      && t.completionDate.None? && t.id == id && t.createdAt == now
  {
  }

  /** The insert breaks a constraint: no title, or a user id (after `|| null`) with no
      user row behind it. */
  predicate CreateRejected(db: Database, body: NewTaskBody)
    reads db
  {
    body.title.None? || (OrNull(body.userId).Some? && OrNull(body.userId).value !in db.users)
  }

  /** POST /: rejects an equipment id with no equipment row (400); an insert that breaks
      a constraint throws (500); otherwise the new task goes in under the next id. */
  method CreateTask(db: Database, body: NewTaskBody, now: int) returns (res: Response<Task>)
    requires db.Valid()
    modifies db`tasks, db`nextTaskId
    ensures db.Valid()
    ensures res.Failure? ==> db.tasks == old(db.tasks) && db.nextTaskId == old(db.nextTaskId)
    ensures body.equipmentId !in db.equipment ==> res == Failure(BadRequest, "Equipment not found")
    ensures body.equipmentId in db.equipment && CreateRejected(db, body) ==>
      res == Failure(ServerError, "Failed to create task")
    ensures body.equipmentId in db.equipment && !CreateRejected(db, body) ==>
      && res == Success(Created, NewTask(old(db.nextTaskId), body, now))
      && old(db.nextTaskId) !in old(db.tasks)
      && db.tasks == old(db.tasks)[old(db.nextTaskId) := res.value]
      && db.nextTaskId == old(db.nextTaskId) + 1
  {
    if body.equipmentId !in db.equipment {
      return Failure(BadRequest, "Equipment not found");
    }
    if CreateRejected(db, body) {
      return Failure(ServerError, "Failed to create task");
    }
    var task := NewTask(db.nextTaskId, body, now);
    db.tasks := db.tasks[task.id := task];
    db.nextTaskId := db.nextTaskId + 1;
    return Success(Created, task);
  }

  /** Body of PUT /:id: every field may be absent (left unchanged); the user id may also
      be null (unassigned); the completion date is a `DateInput`. */
  datatype TaskUpdate = TaskUpdate(
    title: Option<string>,
    description: Option<string>,
    status: Option<string>,
    priority: Option<string>,
    team: Option<string>,
    equipmentId: Option<int>,
    userId: Option<Option<int>>,
    completionDate: DateInput)

  /** The row after PUT /:id: given fields replace stored ones, the rest stay. */
  function ApplyUpdate(t: Task, u: TaskUpdate, now: int): Task {
    t.(title := u.title.GetOr(t.title),
       description := u.description.GetOr(t.description),
       status := u.status.GetOr(t.status),
       priority := u.priority.GetOr(t.priority),
       team := u.team.GetOr(t.team),
       equipmentId := u.equipmentId.GetOr(t.equipmentId),
       userId := u.userId.GetOr(t.userId),
       completionDate := if u.completionDate.DateAt? then Some(u.completionDate.ms) else t.completionDate,
       updatedAt := now)
  }

  /** PUT never clears a completion date and, unlike the status PATCH, never stamps one:
      the date changes only to a value the body supplies. Identity and creation fields stay. */
  lemma UpdateCompletionDate(t: Task, u: TaskUpdate, now: int)
    ensures var r := ApplyUpdate(t, u, now);
      && (t.completionDate.Some? ==> r.completionDate.Some?)
      && (r.completionDate != t.completionDate ==> u.completionDate.DateAt? && r.completionDate == Some(u.completionDate.ms))
      && r.id == t.id && r.createdAt == t.createdAt && r.assignedDate == t.assignedDate
  {
  }

  /** An empty body leaves every field but `updatedAt` as it was. */
  lemma EmptyUpdateKeepsTask(t: Task, now: int)
    ensures ApplyUpdate(t, TaskUpdate(None, None, None, None, None, None, None, NoDate), now) == t.(updatedAt := now)
  {
  }

  /** What makes the database refuse a task update: an invalid completion date, or a
      reference it would leave dangling. */
  predicate UpdateRejected(db: Database, u: TaskUpdate)
    reads db
  {
    || u.completionDate.InvalidDate?
    || (u.equipmentId.Some? && u.equipmentId.value !in db.equipment)
    || (u.userId.Some? && u.userId.value.Some? && u.userId.value.value !in db.users)
  }

  /** PUT /:id: a non-numeric or unknown id, an invalid completion date, or a reference to
      a missing row makes the update throw. */
  method UpdateTask(db: Database, idParam: string, u: TaskUpdate, now: int) returns (res: Response<Task>)
    requires db.Valid()
    modifies db`tasks
    ensures db.Valid()
    ensures ParseInt(idParam).None? || ParseInt(idParam).value !in old(db.tasks) || UpdateRejected(db, u) ==>
      res == Failure(ServerError, "Failed to update task") && db.tasks == old(db.tasks)
    ensures ParseInt(idParam).Some? && ParseInt(idParam).value in old(db.tasks) && !UpdateRejected(db, u) ==>
      var id := ParseInt(idParam).value;
      && res == Success(Ok, ApplyUpdate(old(db.tasks)[id], u, now))
      && db.tasks == old(db.tasks)[id := res.value]
  {
    var id := ParseInt(idParam);
    if id.None? || id.value !in db.tasks || UpdateRejected(db, u) {
      return Failure(ServerError, "Failed to update task");
    }
    var task := ApplyUpdate(db.tasks[id.value], u, now);
    db.tasks := db.tasks[id.value := task];
    return Success(Ok, task);
  }

  /** The row after a valid status PATCH: the new status, a completion date of `now` when
      the status is Repaired or Scrap, and the automatic `updatedAt`. */
  function ApplyStatus(t: Task, s: Status, now: int): Task {
    var stamped := t.(status := s.Name(), updatedAt := now);
    if s.IsCompleted() then stamped.(completionDate := Some(now)) else stamped
  }

  /** Moving into Repaired or Scrap stamps the completion date with the current time. */
  lemma ApplyStatusStampsCompletion(t: Task, s: Status, now: int)
    requires s.IsCompleted()
    ensures ApplyStatus(t, s, now).completionDate == Some(now)
    ensures ApplyStatus(t, s, now).status == s.Name()
  {
  }

  /** Moving into New or In Progress keeps the completion date as it was, set or not:
      reopening a completed task does not clear it. */
  lemma ApplyStatusKeepsCompletionOnReopen(t: Task, s: Status, now: int)
    requires !s.IsCompleted()
    ensures ApplyStatus(t, s, now).completionDate == t.completionDate
    ensures ApplyStatus(t, s, now).status == s.Name()
  {
  }

  /** A status PATCH touches the status, possibly the completion date, and `updatedAt`;
      every other field keeps its value. */
  lemma ApplyStatusFrame(t: Task, s: Status, now: int)
    ensures var r := ApplyStatus(t, s, now);
      r == t.(status := s.Name(), completionDate := r.completionDate, updatedAt := now)
  {
  }

  /** A repeated non-completing transition changes nothing but `updatedAt`. */
  lemma ApplyStatusIdempotentOnOpen(t: Task, s: Status, now: int, later: int)
    requires !s.IsCompleted()
    ensures ApplyStatus(ApplyStatus(t, s, now), s, later) == ApplyStatus(t, s, later)
  {
  }

  /** PATCH /:id/status. The status is checked first (400 for anything outside the four
      literals, including a missing one); a non-numeric or unknown id then makes the
      update throw, so it yields 500, not 404. Nothing changes on any failure. */
  method PatchStatus(db: Database, idParam: string, status: Option<string>, now: int) returns (res: Response<Task>)
    requires db.Valid()
    modifies db`tasks
    ensures db.Valid()
    ensures status.None? || ParseStatus(status.value).None? ==>
      res == Failure(BadRequest, "Invalid status") && db.tasks == old(db.tasks)
    ensures (status.Some? && ParseStatus(status.value).Some? &&
      (ParseInt(idParam).None? || ParseInt(idParam).value !in old(db.tasks))) ==>
      res == Failure(ServerError, "Failed to update task status") && db.tasks == old(db.tasks)
    ensures (status.Some? && ParseStatus(status.value).Some? &&
      ParseInt(idParam).Some? && ParseInt(idParam).value in old(db.tasks)) ==>
      var id := ParseInt(idParam).value;
      && res == Success(Ok, ApplyStatus(old(db.tasks)[id], ParseStatus(status.value).value, now))
      && db.tasks == old(db.tasks)[id := res.value]
  {
    if status.None? {
      return Failure(BadRequest, "Invalid status");
    }
    var s := ParseStatus(status.value);
    if s.None? {
      return Failure(BadRequest, "Invalid status");
    }
    var id := ParseInt(idParam);
    if id.None? || id.value !in db.tasks {
      return Failure(ServerError, "Failed to update task status");
    }
    var task := ApplyStatus(db.tasks[id.value], s.value, now);
    db.PutTask(task);
    return Success(Ok, task);
  }

  /** DELETE /:id: a non-numeric or unknown id makes the delete throw. */
  method DeleteTask(db: Database, idParam: string) returns (res: Response<string>)
    requires db.Valid()
    modifies db`tasks
    ensures db.Valid()
    ensures ParseInt(idParam).None? || ParseInt(idParam).value !in old(db.tasks) ==>
      res == Failure(ServerError, "Failed to delete task") && db.tasks == old(db.tasks)
    ensures ParseInt(idParam).Some? && ParseInt(idParam).value in old(db.tasks) ==>
      res == Success(Ok, "Task deleted successfully")
      && db.tasks == old(db.tasks) - {ParseInt(idParam).value}
  {
    var id := ParseInt(idParam);
    if id.None? || id.value !in db.tasks {
      return Failure(ServerError, "Failed to delete task");
    }
    db.tasks := db.tasks - {id.value};
    return Success(Ok, "Task deleted successfully");
  }
}
