/** The `/events` routes (backend/src/routes/events.router.ts) behind the maintenance
    calendar: listing by calendar month and event type, lookup, creation, update and
    deletion. */
module EventsRouter {
  import opened Wrappers
  import opened Model
  import opened Decimal
  import opened Dates
  import opened Orm

  /** Query string of GET /. */
  datatype EventQuery = EventQuery(month: Option<string>, year: Option<string>, eventType: Option<string>)

  /** The `where` object: an optional closed date window and an optional event type. */
  datatype EventWhere = EventWhere(window: Option<Window>, eventType: Option<string>) {
    predicate Selects(e: MaintenanceEvent) {
      && (window.Some? ==> window.value.Contains(e.eventDate))
      && (eventType.Some? ==> e.eventType == eventType.value)
    }
  }

  /** Month and year are both given (non-empty), so the listing is limited to a month. */
  predicate HasMonth(q: EventQuery) {
    Truthy(q.month) && Truthy(q.year)
  }

  /** The month window cannot be built: a month or year that does not parse makes an
      invalid date, which the database rejects. */
  predicate BadMonth(q: EventQuery) {
    HasMonth(q) && (ParseInt(q.year.value).None? || ParseInt(q.month.value).None?)
  }

  /** What GET / promises of a listed event. */
  predicate MatchesQuery(q: EventQuery, e: MaintenanceEvent)
    requires !BadMonth(q)
  {
    && (HasMonth(q) ==> MonthWindow(ParseInt(q.year.value).value, ParseInt(q.month.value).value).Contains(e.eventDate))
    && (Truthy(q.eventType) ==> e.eventType == q.eventType.value)
  }

  method BuildWhere(q: EventQuery) returns (w: Option<EventWhere>)
    ensures w.None? <==> BadMonth(q)
    ensures w.Some? ==> forall e :: w.value.Selects(e) <==> MatchesQuery(q, e)
  {
    var where := EventWhere(None, None);
    if HasMonth(q) {
      var year := ParseInt(q.year.value);
      var month := ParseInt(q.month.value);
      if year.None? || month.None? {
        return None;
      }
      where := where.(window := Some(MonthWindow(year.value, month.value)));
    }
    if Truthy(q.eventType) {
      where := where.(eventType := q.eventType);
    }
    return Some(where);
  }

  predicate Chronological(s: seq<MaintenanceEvent>) {
    forall i, j :: 0 <= i < j < |s| ==> s[i].eventDate <= s[j].eventDate
  }

  function DateRank(e: MaintenanceEvent): int { e.eventDate }

  /** GET /: exactly the events that meet the filters, each once, earliest first. */
  method ListEvents(db: Database, q: EventQuery) returns (res: Response<seq<MaintenanceEvent>>)
    requires db.Valid()
    ensures res.Failure? <==> BadMonth(q)
    ensures res.Failure? ==> res == Failure(ServerError, "Failed to fetch events")
    ensures res.Success? ==> res.code == Ok && Chronological(res.value)
    ensures res.Success? ==> forall e :: e in res.value ==> e in db.events.Values && MatchesQuery(q, e)
    ensures res.Success? ==> forall id :: id in db.events && MatchesQuery(q, db.events[id]) ==> db.events[id] in res.value
    ensures res.Success? ==> |res.value| == |set id | id in db.events && MatchesQuery(q, db.events[id])|
  {
    var where := BuildWhere(q);
    if where.None? {
      return Failure(ServerError, "Failed to fetch events");
    }
    var w := where.value;
    var found := FindMany(db.events, (e: MaintenanceEvent) => w.Selects(e), DateRank);
    assert MatchingKeys(db.events, (e: MaintenanceEvent) => w.Selects(e))
        == set id | id in db.events && MatchesQuery(q, db.events[id]);
    forall i, j | 0 <= i < j < |found| ensures found[i].eventDate <= found[j].eventDate {
      assert DateRank(found[i]) <= DateRank(found[j]);
    }
    return Success(Ok, found);
  }

  /** For a month 1..12, a listed event falls between midnight on the 1st and 23:59:59 on
      the last day of that month. */
  lemma ListedEventInMonth(q: EventQuery, e: MaintenanceEvent, year: int, month: int)
    requires HasMonth(q) && ParseInt(q.year.value) == Some(year) && ParseInt(q.month.value) == Some(month)
    requires 1 <= month <= 12
    requires MatchesQuery(q, e)
    ensures var y := FullYear(year);
      DayStart(y, month - 1, 1) <= e.eventDate <= DayStart(y, month - 1, DaysInMonth(y, month - 1)) + LastSecondOfDay
  {
    assert MonthWindow(year, month).Contains(e.eventDate);
    MonthWindowSpansMonth(year, month);
  }

  /** The query the client sends for a month, with month and year written by `toString`,
      asks for exactly that month. */
  lemma ClientMonthQuery(year: nat, month: nat, eventType: Option<string>)
    ensures var q := EventQuery(Some(IntToString(month)), Some(IntToString(year)), eventType);
      && HasMonth(q) && !BadMonth(q)
      && ParseInt(q.year.value) == Some(year) && ParseInt(q.month.value) == Some(month)
  {
    ParseIntOfIntToString(year);
    ParseIntOfIntToString(month);
  }

  /** A month or year left out or empty lists every month. */
  lemma NoMonthNoWindow(q: EventQuery, e: MaintenanceEvent)
    requires !HasMonth(q)
    ensures MatchesQuery(q, e) <==> (Truthy(q.eventType) ==> e.eventType == q.eventType.value)
  {
  }

  /** GET /:id. */
  method GetEvent(db: Database, idParam: string) returns (res: Response<MaintenanceEvent>)
    requires db.Valid()
    ensures ParseInt(idParam).None? ==> res == Failure(ServerError, "Failed to fetch event")
    ensures ParseInt(idParam).Some? && ParseInt(idParam).value !in db.events ==> res == Failure(NotFound, "Event not found")
    ensures ParseInt(idParam).Some? && ParseInt(idParam).value in db.events ==>
      res == Success(Ok, db.events[ParseInt(idParam).value]) && res.value.id == ParseInt(idParam).value
  {
    var id := ParseInt(idParam);
    if id.None? {
      return Failure(ServerError, "Failed to fetch event");
    }
    if id.value !in db.events {
      return Failure(NotFound, "Event not found");
    }
    return Success(Ok, db.events[id.value]);
  }

  /** Body of POST /. The event date is the instant the date string denotes, `None` when
      it is missing or does not denote a valid date. */
  datatype NewEventBody = NewEventBody(
    title: Option<string>,
    description: Option<string>,
    eventDate: Option<int>,
    eventType: Option<string>,
    equipmentId: Option<int>)

  /** The row POST / inserts: an empty description and an equipment id of 0 become null,
      and the event type defaults to Preventive. */
  function NewEvent(id: int, body: NewEventBody, now: int): MaintenanceEvent
    requires body.title.Some? && body.eventDate.Some?
  {
    MaintenanceEvent(id, body.title.value, if Truthy(body.description) then body.description else None,
      body.eventDate.value, OrDefault(body.eventType, EventType.Preventive.Name()), OrNull(body.equipmentId), now)
  }

  lemma NewEventDefaults(id: int, title: string, date: int, now: int)
    ensures var e := NewEvent(id, NewEventBody(Some(title), Some(""), Some(date), None, Some(0)), now);
      e.description == None && e.eventType == "Preventive" && e.equipmentId == None && e.eventDate == date
  {
  }

  /** The insert breaks a constraint: no title, no valid date, or an equipment id with no
      equipment row behind it. */
  predicate CreateRejected(db: Database, body: NewEventBody)
    reads db
  {
    || body.title.None? || body.eventDate.None?
    || (OrNull(body.equipmentId).Some? && OrNull(body.equipmentId).value !in db.equipment)
  }

  /** POST /. */
  method CreateEvent(db: Database, body: NewEventBody, now: int) returns (res: Response<MaintenanceEvent>)
    requires db.Valid()
    modifies db`events, db`nextEventId
    ensures db.Valid()
    ensures CreateRejected(db, body) ==>
      res == Failure(ServerError, "Failed to create event")
      && db.events == old(db.events) && db.nextEventId == old(db.nextEventId)
    ensures !CreateRejected(db, body) ==>
      && res == Success(Created, NewEvent(old(db.nextEventId), body, now))
      && old(db.nextEventId) !in old(db.events)
      && db.events == old(db.events)[old(db.nextEventId) := res.value]
      && db.nextEventId == old(db.nextEventId) + 1
  {
    if CreateRejected(db, body) {
      return Failure(ServerError, "Failed to create event");
    }
    var e := NewEvent(db.nextEventId, body, now);
    db.events := db.events[e.id := e];
    db.nextEventId := db.nextEventId + 1;
    return Success(Created, e);
  }

  /** Body of PUT /:id: absent fields stay; the date is a `DateInput`; description and
      equipment may also be set to null. */
  datatype EventUpdate = EventUpdate(
    title: Option<string>,
    description: Option<Option<string>>,
    eventDate: DateInput,
    eventType: Option<string>,
    equipmentId: Option<Option<int>>)

  function ApplyUpdate(e: MaintenanceEvent, u: EventUpdate): MaintenanceEvent {
    e.(title := u.title.GetOr(e.title),
       description := u.description.GetOr(e.description),
       eventDate := if u.eventDate.DateAt? then u.eventDate.ms else e.eventDate,
       eventType := u.eventType.GetOr(e.eventType),
       equipmentId := u.equipmentId.GetOr(e.equipmentId))
  }

  /** Rescheduling moves only the date: the event keeps its type, title and equipment. */
  lemma RescheduleKeepsRest(e: MaintenanceEvent, date: int)
    ensures ApplyUpdate(e, EventUpdate(None, None, DateAt(date), None, None)) == e.(eventDate := date)
  {
  }

  /** What makes the database refuse an event update: an invalid date, or an equipment
      reference it would leave dangling. */
  predicate UpdateRejected(db: Database, u: EventUpdate)
    reads db
  {
    || u.eventDate.InvalidDate?
    || (u.equipmentId.Some? && u.equipmentId.value.Some? && u.equipmentId.value.value !in db.equipment)
  }

  /** PUT /:id. */
  method UpdateEvent(db: Database, idParam: string, u: EventUpdate) returns (res: Response<MaintenanceEvent>)
    requires db.Valid()
    modifies db`events
    ensures db.Valid()
    ensures ParseInt(idParam).None? || ParseInt(idParam).value !in old(db.events) || UpdateRejected(db, u) ==>
      res == Failure(ServerError, "Failed to update event") && db.events == old(db.events)
    ensures ParseInt(idParam).Some? && ParseInt(idParam).value in old(db.events) && !UpdateRejected(db, u) ==>
      var id := ParseInt(idParam).value;
      && res == Success(Ok, ApplyUpdate(old(db.events)[id], u))
      && db.events == old(db.events)[id := res.value]
  {
    var id := ParseInt(idParam);
    if id.None? || id.value !in db.events || UpdateRejected(db, u) {
      return Failure(ServerError, "Failed to update event");
    }
    var e := ApplyUpdate(db.events[id.value], u);
    db.events := db.events[id.value := e];
    return Success(Ok, e);
  }

  /** DELETE /:id. */
  method DeleteEvent(db: Database, idParam: string) returns (res: Response<string>)
    requires db.Valid()
    modifies db`events
    ensures db.Valid()
    ensures ParseInt(idParam).None? || ParseInt(idParam).value !in old(db.events) ==>
      res == Failure(ServerError, "Failed to delete event") && db.events == old(db.events)
    ensures ParseInt(idParam).Some? && ParseInt(idParam).value in old(db.events) ==>
      res == Success(Ok, "Event deleted successfully") && db.events == old(db.events) - {ParseInt(idParam).value}
  {
    var id := ParseInt(idParam);
    if id.None? || id.value !in db.events {
      return Failure(ServerError, "Failed to delete event");
    }
    db.events := db.events - {id.value};
    return Success(Ok, "Event deleted successfully");
  }
}
