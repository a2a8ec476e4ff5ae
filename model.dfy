/** The records the backend stores and the client receives (frontend/lib/types.ts),
    the literal sets of their enumerated fields, and HTTP responses. Status, priority,
    team, equipment status and event type are stored as plain strings, because only
    the status PATCH checks them against a literal set. Instants are milliseconds. */
module Model {
  import opened Wrappers

  /** JavaScript truthiness of an optional string: absent or empty is falsy. */
  predicate Truthy(s: Option<string>) {
    s.Some? && s.value != ""
  }

  /** `s || fallback` on an optional string. */
  function OrDefault(s: Option<string>, fallback: string): (r: string)
    ensures Truthy(s) ==> r == s.value
    ensures !Truthy(s) ==> r == fallback
  {
    if Truthy(s) then s.value else fallback
  }

  /** `n || null` on an optional number: 0 is falsy as well. */
  function OrNull(n: Option<int>): (r: Option<int>)
    ensures r.Some? <==> n.Some? && n.value != 0
    ensures r.Some? ==> r == n
  {
    if n.Some? && n.value != 0 then n else None
  }

  /** A date field of an update body after `x ? new Date(x) : undefined`: a falsy value
      leaves the field alone, a text `new Date` cannot read gives an invalid date, which the
      database refuses to store, and anything else is an instant. */
  datatype DateInput = NoDate | InvalidDate | DateAt(ms: int)

  /** The four task statuses, which are also the four Kanban columns. */
  datatype Status = New | InProgress | Repaired | Scrap {
    function Name(): string {
      match this
      case New => "New"
      case InProgress => "In Progress"
      case Repaired => "Repaired"
      case Scrap => "Scrap"
    }

    /** Repaired and Scrap mark a task as completed. */
    predicate IsCompleted() {
      this == Repaired || this == Scrap
    }
  }

  /** The statuses in column order. */
  const Statuses: seq<Status> := [New, InProgress, Repaired, Scrap]

  /** Membership in the four-literal status set. */
  function ParseStatus(s: string): (r: Option<Status>)
    ensures r.Some? ==> r.value.Name() == s
    ensures r.None? ==> forall st: Status :: st.Name() != s
  {
    if s == "New" then Some(New)
    else if s == "In Progress" then Some(InProgress)
    else if s == "Repaired" then Some(Repaired)
    else if s == "Scrap" then Some(Scrap)
    else None
  }

  datatype Priority = Low | Medium | High | Critical {
    function Name(): string {
      match this
      case Low => "Low"
      case Medium => "Medium"
      case High => "High"
      case Critical => "Critical"
    }
  }

  datatype EventType = Preventive | Corrective | Inspection {
    function Name(): string {
      match this
      case Preventive => "Preventive"
      case Corrective => "Corrective"
      case Inspection => "Inspection"
    }
  }

  datatype EquipmentStatus = Operational | MaintenanceRequired | Broken {
    function Name(): string {
      match this
      case Operational => "Operational"
      case MaintenanceRequired => "Maintenance Required"
      case Broken => "Broken"
    }
  }

  /** The teams the workload summary reports on, in its order. */
  const Teams: seq<string> := ["Mechanics", "Electricians", "IT", "Maintenance"]

  const DefaultTeam: string := "Maintenance"
  const DefaultCategory: string := "General"
  const DefaultRole: string := "Technician"

  datatype Task = Task(
    id: int,
    title: string,
    description: string,
    status: string,
    priority: string,
    team: string,
    assignedDate: int,
    completionDate: Option<int>,
    equipmentId: int,
    userId: Option<int>,
    createdAt: int,
    updatedAt: int)

  datatype Equipment = Equipment(
    id: int,
    name: string,
    description: string,
    serialNumber: string,
    status: string,
    category: string,
    location: string,
    lastMaintained: Option<int>,
    createdAt: int,
    updatedAt: int)

  datatype User = User(
    id: int,
    name: string,
    email: string,
    password: string,
    role: string,
    createdAt: int)

  /** A user as every route returns it: the record with its password removed. */
  datatype PublicUser = PublicUser(
    id: int,
    name: string,
    email: string,
    role: string,
    createdAt: int)

  datatype MaintenanceEvent = MaintenanceEvent(
    id: int,
    title: string,
    description: Option<string>,
    eventDate: int,
    eventType: string,
    equipmentId: Option<int>,
    createdAt: int)

  /** Drops the password and keeps every other field. */
  function WithoutPassword(u: User): (p: PublicUser)
    ensures p.id == u.id && p.name == u.name && p.email == u.email
    ensures p.role == u.role && p.createdAt == u.createdAt
  {
    PublicUser(u.id, u.name, u.email, u.role, u.createdAt)
  }

  const Ok: int := 200
  const Created: int := 201
  const BadRequest: int := 400
  const Unauthorized: int := 401
  const NotFound: int := 404
  const ServerError: int := 500

  /** An HTTP response: a JSON value, or the `{ error }` body with its status code. */
  datatype Response<T> = Success(code: int, value: T) | Failure(code: int, error: string)
}
