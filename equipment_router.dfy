/** The `/equipment` routes (backend/src/routes/equipment.router.ts): the registry
    listing with its filters and search, lookup with the five most recent tasks,
    creation with a unique serial number, update and deletion. */
module EquipmentRouter {
  import opened Wrappers
  import opened Model
  import opened Decimal
  import opened Orm
  import TasksRouter

  /** ASCII lower case, the folding a case-insensitive `contains` applies. */
  function LowerChar(c: char): (r: char)
    ensures 'A' <= c <= 'Z' ==> r as int == c as int + 32
    ensures !('A' <= c <= 'Z') ==> r == c
    ensures !('A' <= r <= 'Z')
  {
    if 'A' <= c <= 'Z' then (c as int + 32) as char else c
  }

  function Lower(s: string): (r: string)
    ensures |r| == |s|
    ensures forall i :: 0 <= i < |s| ==> r[i] == LowerChar(s[i])
  {
    seq(|s|, i requires 0 <= i < |s| => LowerChar(s[i]))
  }

  /** `needle` occurs in `hay` starting at index `i`. */
  predicate OccursAt(hay: string, needle: string, i: int) {
    0 <= i <= |hay| - |needle| && hay[i..i + |needle|] == needle
  }

  /** `needle` occurs in `hay` once both are folded to lower case. */
  predicate ContainsInsensitive(hay: string, needle: string) {
    exists i :: 0 <= i <= |hay| - |needle| && OccursAt(Lower(hay), Lower(needle), i)
  }

  lemma LowerIdempotent(s: string)
    ensures Lower(Lower(s)) == Lower(s)
  {
  }

  /** A literal occurrence is found, whatever the case of either side. */
  lemma ContainsInsensitiveOfSlice(hay: string, i: int, n: int)
    requires 0 <= i <= i + n <= |hay|
    ensures ContainsInsensitive(hay, hay[i..i + n])
    ensures ContainsInsensitive(Lower(hay), hay[i..i + n])
    ensures ContainsInsensitive(hay, Lower(hay[i..i + n]))
  {
    var needle := hay[i..i + n];
    assert Lower(hay)[i..i + n] == Lower(needle);
    LowerIdempotent(hay);
    LowerIdempotent(needle);
    assert OccursAt(Lower(hay), Lower(needle), i);
    assert OccursAt(Lower(Lower(hay)), Lower(needle), i);
    assert OccursAt(Lower(hay), Lower(Lower(needle)), i);
  }

  /** Changing the case of the search string changes nothing. */
  lemma ContainsInsensitiveCaseBlind(hay: string, needle: string)
    ensures ContainsInsensitive(hay, needle) <==> ContainsInsensitive(hay, Lower(needle))
  {
    LowerIdempotent(needle);
  }

  /** Query string of GET /. */
  datatype EquipmentQuery = EquipmentQuery(status: Option<string>, category: Option<string>, search: Option<string>)

  /** What GET / promises of a listed row: it meets each filter supplied with a non-empty
      value, and a search matches its name or its serial number, ignoring case. */
  predicate MatchesQuery(q: EquipmentQuery, e: Equipment) {
    && (Truthy(q.status) ==> e.status == q.status.value)
    && (Truthy(q.category) ==> e.category == q.category.value)
    && (Truthy(q.search) ==>
          ContainsInsensitive(e.name, q.search.value) || ContainsInsensitive(e.serialNumber, q.search.value))
  }

  predicate NewestFirst(s: seq<Equipment>) {
    forall i, j :: 0 <= i < j < |s| ==> s[i].createdAt >= s[j].createdAt
  }

  function NewestRank(e: Equipment): int { -e.createdAt }

  /** The number of tasks that refer to equipment `id` (the listing's `_count.tasks`). */
  function TaskCount(tasks: map<int, Task>, id: int): nat {
    |set k | k in tasks && tasks[k].equipmentId == id|
  }

  /** A listed row with its task count. */
  datatype Listed = Listed(item: Equipment, taskCount: nat)

  /** GET /: exactly the rows that meet the filters, each once, newest first, each with
      the number of its tasks. */
  method ListEquipment(db: Database, q: EquipmentQuery) returns (res: Response<seq<Listed>>)
    requires db.Valid()
    ensures res.Success? && res.code == Ok
    ensures forall i :: 0 <= i < |res.value| ==>
      && res.value[i].item in db.equipment.Values && MatchesQuery(q, res.value[i].item)
      && res.value[i].taskCount == TaskCount(db.tasks, res.value[i].item.id)
    ensures forall id :: id in db.equipment && MatchesQuery(q, db.equipment[id]) ==>
      exists i :: 0 <= i < |res.value| && res.value[i].item == db.equipment[id]
    ensures |res.value| == |set id | id in db.equipment && MatchesQuery(q, db.equipment[id])|
    ensures forall i, j :: 0 <= i < j < |res.value| ==> res.value[i].item.createdAt >= res.value[j].item.createdAt
  {
    var found := FindMany(db.equipment, (e: Equipment) => MatchesQuery(q, e), NewestRank);
    assert MatchingKeys(db.equipment, (e: Equipment) => MatchesQuery(q, e))
        == set id | id in db.equipment && MatchesQuery(q, db.equipment[id]);
    var tasks := db.tasks;
    var rows := seq(|found|, i requires 0 <= i < |found| => Listed(found[i], TaskCount(tasks, found[i].id)));
    forall i, j | 0 <= i < j < |rows| ensures rows[i].item.createdAt >= rows[j].item.createdAt {
      assert NewestRank(found[i]) <= NewestRank(found[j]);
    }
    forall id | id in db.equipment && MatchesQuery(q, db.equipment[id])
      ensures exists i :: 0 <= i < |rows| && rows[i].item == db.equipment[id]
    {
      var i :| 0 <= i < |found| && found[i] == db.equipment[id];
      assert rows[i].item == db.equipment[id];
    }
    return Success(Ok, rows);
  }

  /** The first five rows of a newest-first listing of exactly an equipment's tasks are
      its five most recent: none of its tasks left out is newer than one shown, and when it
      has five or fewer, all of them are shown. */
  lemma RecentTasksOfEquipment(tasks: map<int, Task>, eid: int, all: seq<Task>)
    requires forall id :: id in tasks ==> tasks[id].id == id
    requires TasksRouter.NewestFirst(all)
    requires forall i :: 0 <= i < |all| ==> all[i] in tasks.Values && all[i].equipmentId == eid
    requires forall k :: k in tasks && tasks[k].equipmentId == eid ==> tasks[k] in all
    requires |all| == TaskCount(tasks, eid)
    ensures var recent := Take(all, 5);
      && |recent| == (if TaskCount(tasks, eid) < 5 then TaskCount(tasks, eid) else 5)
      && (forall i :: 0 <= i < |recent| ==> recent[i] in tasks.Values && recent[i].equipmentId == eid)
      && TasksRouter.NewestFirst(recent)
      && (forall k, i :: (&& k in tasks && tasks[k].equipmentId == eid && 0 <= i < |recent|
                          && forall j :: 0 <= j < |recent| ==> recent[j].id != k) ==>
            tasks[k].createdAt <= recent[i].createdAt)
      && (TaskCount(tasks, eid) <= 5 ==> forall k :: k in tasks && tasks[k].equipmentId == eid ==> tasks[k] in recent)
  {
    var recent := Take(all, 5);
    assert forall i :: 0 <= i < |recent| ==> recent[i] == all[i];
    var mine := map k | k in tasks && tasks[k].equipmentId == eid :: tasks[k];
    TasksRouter.NewestKept(mine, all, |recent|);
  }

  /** A row with its five most recent tasks. */
  datatype Detail = Detail(item: Equipment, recentTasks: seq<Task>)

  /** GET /:id: the row and its five most recent tasks, newest first; when it has five or
      fewer, all of them. */
  method GetEquipment(db: Database, idParam: string) returns (res: Response<Detail>)
    requires db.Valid()
    ensures ParseInt(idParam).None? ==> res == Failure(ServerError, "Failed to fetch equipment")
    ensures ParseInt(idParam).Some? && ParseInt(idParam).value !in db.equipment ==>
      res == Failure(NotFound, "Equipment not found")
    ensures ParseInt(idParam).Some? && ParseInt(idParam).value in db.equipment ==>
      var id := ParseInt(idParam).value;
      && res.Success? && res.code == Ok && res.value.item == db.equipment[id]
      && |res.value.recentTasks| <= 5
      && (forall i :: 0 <= i < |res.value.recentTasks| ==>
            res.value.recentTasks[i] in db.tasks.Values && res.value.recentTasks[i].equipmentId == id)
      && TasksRouter.NewestFirst(res.value.recentTasks)
      && |res.value.recentTasks| == (if TaskCount(db.tasks, id) < 5 then TaskCount(db.tasks, id) else 5)
      && (forall k, i :: (&& k in db.tasks && db.tasks[k].equipmentId == id && 0 <= i < |res.value.recentTasks|
                          && forall j :: 0 <= j < |res.value.recentTasks| ==> res.value.recentTasks[j].id != k) ==>
            db.tasks[k].createdAt <= res.value.recentTasks[i].createdAt)
      && (TaskCount(db.tasks, id) <= 5 ==>
            forall k :: k in db.tasks && db.tasks[k].equipmentId == id ==> db.tasks[k] in res.value.recentTasks)
  {
    var id := ParseInt(idParam);
    if id.None? {
      return Failure(ServerError, "Failed to fetch equipment");
    }
    if id.value !in db.equipment {
      return Failure(NotFound, "Equipment not found");
    }
    var eid := id.value;
    var tasks := FindMany(db.tasks, (t: Task) => t.equipmentId == eid, TasksRouter.NewestRank);
    TasksRouter.NewestRankOrder(tasks);
    assert MatchingKeys(db.tasks, (t: Task) => t.equipmentId == eid) == set k | k in db.tasks && db.tasks[k].equipmentId == eid;
    RecentTasksOfEquipment(db.tasks, eid, tasks);
    return Success(Ok, Detail(db.equipment[eid], Take(tasks, 5)));
  }

  /** Body of POST /. Name and serial number are required by the schema. */
  datatype NewEquipmentBody = NewEquipmentBody(
    name: Option<string>,
    description: Option<string>,
    serialNumber: Option<string>,
    status: Option<string>,
    category: Option<string>,
    location: Option<string>)

  /** The row POST / inserts: absent or empty optional fields take their defaults and no
      maintenance date is set. */
  function NewEquipment(id: int, body: NewEquipmentBody, now: int): Equipment
    requires body.name.Some? && body.serialNumber.Some?
  {
    Equipment(id, body.name.value, OrDefault(body.description, ""), body.serialNumber.value,
      OrDefault(body.status, EquipmentStatus.Operational.Name()), OrDefault(body.category, DefaultCategory),
      OrDefault(body.location, ""), None, now, now)
  }

  lemma NewEquipmentDefaults(id: int, name: string, serial: string, now: int)
    ensures var e := NewEquipment(id, NewEquipmentBody(Some(name), None, Some(serial), None, None, None), now);
      && e.status == "Operational" && e.category == "General" && e.description == "" && e.location == ""
      && e.lastMaintained == None && e.name == name && e.serialNumber == serial
  {
  }

  /** Some row already carries serial number `serial`. */
  predicate SerialTaken(equipment: map<int, Equipment>, serial: string) {
    exists id :: id in equipment && equipment[id].serialNumber == serial
  }

  /** POST /: a duplicate serial number is rejected with 400 and nothing changes; a body
      without the required name or serial number makes the database call throw. */
  method CreateEquipment(db: Database, body: NewEquipmentBody, now: int) returns (res: Response<Equipment>)
    requires db.Valid()
    modifies db`equipment, db`nextEquipmentId
    ensures db.Valid()
    ensures res.Failure? ==> db.equipment == old(db.equipment) && db.nextEquipmentId == old(db.nextEquipmentId)
    ensures body.serialNumber.None? ==> res == Failure(ServerError, "Failed to create equipment")
    ensures body.serialNumber.Some? && SerialTaken(old(db.equipment), body.serialNumber.value) ==>
      res == Failure(BadRequest, "Equipment with this serial number already exists")
    ensures body.serialNumber.Some? && !SerialTaken(old(db.equipment), body.serialNumber.value) && body.name.None? ==>
      res == Failure(ServerError, "Failed to create equipment")
    ensures body.serialNumber.Some? && !SerialTaken(old(db.equipment), body.serialNumber.value) && body.name.Some? ==>
      && res == Success(Created, NewEquipment(old(db.nextEquipmentId), body, now))
      && old(db.nextEquipmentId) !in old(db.equipment)
      && db.equipment == old(db.equipment)[old(db.nextEquipmentId) := res.value]
      && db.nextEquipmentId == old(db.nextEquipmentId) + 1
  {
    if body.serialNumber.None? {
      return Failure(ServerError, "Failed to create equipment");
    }
    if SerialTaken(db.equipment, body.serialNumber.value) {
      return Failure(BadRequest, "Equipment with this serial number already exists");
    }
    if body.name.None? {
      return Failure(ServerError, "Failed to create equipment");
    }
    var e := NewEquipment(db.nextEquipmentId, body, now);
    db.equipment := db.equipment[e.id := e];
    db.nextEquipmentId := db.nextEquipmentId + 1;
    return Success(Created, e);
  }

  /** Body of PUT /:id: absent fields stay; a falsy maintenance date is absent. */
  datatype EquipmentUpdate = EquipmentUpdate(
    name: Option<string>,
    description: Option<string>,
    serialNumber: Option<string>,
    status: Option<string>,
    category: Option<string>,
    location: Option<string>,
    lastMaintained: DateInput)

  function ApplyUpdate(e: Equipment, u: EquipmentUpdate, now: int): Equipment {
    e.(name := u.name.GetOr(e.name),
       description := u.description.GetOr(e.description),
       serialNumber := u.serialNumber.GetOr(e.serialNumber),
       status := u.status.GetOr(e.status),
       category := u.category.GetOr(e.category),
       location := u.location.GetOr(e.location),
       lastMaintained := if u.lastMaintained.DateAt? then Some(u.lastMaintained.ms) else e.lastMaintained,
       updatedAt := now)
  }

  /** An update never clears the last maintenance date and keeps identity and creation time. */
  lemma ApplyUpdateKeeps(e: Equipment, u: EquipmentUpdate, now: int)
    ensures var r := ApplyUpdate(e, u, now);
      && r.id == e.id && r.createdAt == e.createdAt
      && (e.lastMaintained.Some? ==> r.lastMaintained.Some?)
      && (u.serialNumber.None? ==> r.serialNumber == e.serialNumber)
  {
  }

  /** The serial number `u` would give row `id` already belongs to another row. */
  predicate SerialClash(equipment: map<int, Equipment>, id: int, u: EquipmentUpdate) {
    u.serialNumber.Some? && exists other :: other in equipment && other != id && equipment[other].serialNumber == u.serialNumber.value
  }

  /** PUT /:id: a non-numeric or unknown id, an invalid maintenance date, or a serial
      number another row holds makes the update throw; otherwise the row takes the
      supplied fields. */
  method UpdateEquipment(db: Database, idParam: string, u: EquipmentUpdate, now: int) returns (res: Response<Equipment>)
    requires db.Valid()
    modifies db`equipment
    ensures db.Valid()
    ensures (ParseInt(idParam).None? || ParseInt(idParam).value !in old(db.equipment)
        || u.lastMaintained.InvalidDate? || SerialClash(old(db.equipment), ParseInt(idParam).value, u)) ==>
      res == Failure(ServerError, "Failed to update equipment") && db.equipment == old(db.equipment)
    ensures (ParseInt(idParam).Some? && ParseInt(idParam).value in old(db.equipment)
        && !u.lastMaintained.InvalidDate? && !SerialClash(old(db.equipment), ParseInt(idParam).value, u)) ==>
      var id := ParseInt(idParam).value;
      && res == Success(Ok, ApplyUpdate(old(db.equipment)[id], u, now))
      && db.equipment == old(db.equipment)[id := res.value]
  {
    var id := ParseInt(idParam);
    if id.None? || id.value !in db.equipment || u.lastMaintained.InvalidDate? || SerialClash(db.equipment, id.value, u) {
      return Failure(ServerError, "Failed to update equipment");
    }
    var e := ApplyUpdate(db.equipment[id.value], u, now);
    db.equipment := db.equipment[id.value := e];
    return Success(Ok, e);
  }

  /** DELETE /:id. */
  method DeleteEquipment(db: Database, idParam: string) returns (res: Response<string>)
    requires db.Valid()
    modifies db`equipment
    ensures db.Valid()
    ensures ParseInt(idParam).None? || ParseInt(idParam).value !in old(db.equipment) ==>
      res == Failure(ServerError, "Failed to delete equipment") && db.equipment == old(db.equipment)
    ensures ParseInt(idParam).Some? && ParseInt(idParam).value in old(db.equipment) ==>
      res == Success(Ok, "Equipment deleted successfully")
      && db.equipment == old(db.equipment) - {ParseInt(idParam).value}
  {
    var id := ParseInt(idParam);
    if id.None? || id.value !in db.equipment {
      return Failure(ServerError, "Failed to delete equipment");
    }
    db.equipment := db.equipment - {id.value};
    return Success(Ok, "Equipment deleted successfully");
  }
}
