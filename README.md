# GearGuard maintenance tracker — a verified model

GearGuard is a maintenance tracker for a plant's equipment. It has a REST backend over a
relational store and a browser dashboard. The store holds four tables: users, equipment,
maintenance tasks (the "requests") and scheduled maintenance events. This project models the
logic of both halves in Dafny.

**Backend.** The model covers the route handlers of the `/tasks`, `/equipment`, `/users`,
`/events` and `/dashboard` routers:

- how each handler turns a query string or a JSON body into a database call;
- the defaults it fills in and the status codes and error messages it answers;
- the ordering of its listings;
- the completion-date rule of the status transition;
- the statistics of the dashboard.

**Frontend.** The model covers:

- the API client's query strings and error messages;
- the hooks that fold a mutation's reply into the cached list;
- the signed-in user kept in local storage;
- where a card dropped on the Kanban page is sent;
- the grouping of tasks into status columns;
- the stand-alone Kanban board component;
- the calendar grid.

**Database.** The store is the class `Orm.Database`. Each table is a field of type
`map<int, Record>`, and each table has its own autoincrement counter. `Database.Valid()` keeps
these invariants:

- keys agree with record ids;
- every key is below the table's next id;
- serial numbers are unique, and so are e-mail addresses.

**Route handlers.** Each handler is a method over the database.

- It states its whole response: a `Response` that is either a success with its value or a
  failure with its code and error.
- It states the new state of every table it may change.
- An ORM call that throws becomes the handler's 500 answer. This covers a `parseInt` id that
  is NaN, a missing row in an update or delete, a unique or foreign-key violation, a
  missing required field, and an invalid date (`new Date` of unreadable text) in an update.

**JavaScript semantics.** Where the code relies on JavaScript behaviour, the model writes it
out:

- `parseInt` and `Number#toString` (module `Decimal`);
- truthiness defaults with `||`, where an empty string and 0 count as absent (module `Model`);
- the `Date(year, month, day, h, m, s)` constructor (module `Dates`);
- the form encoding `URLSearchParams` applies (module `ApiClient`).

**Stateful frontend code.** Code that changes state step by step is imperative Dafny:

- `ApiData`, `Auth`, the requests page and the Kanban board are classes whose methods change
  their fields;
- `SearchParams` is appended to one field at a time;
- the drag-start search is a loop.

**What the code does not promise.** The model states what the code does, including two
places where it is weaker than one might expect:

- **Completion date.** The code does not keep the invariant "a task's completion date is set
  exactly when its status is Repaired or Scrap":
  - reopening a task keeps the old date;
  - creating a task as Repaired sets no date;
  - a full update can set any date on any task.

  `TasksRouter.ApplyStatusKeepsCompletionOnReopen`, `TasksRouter.NewTaskKeepsSuppliedValues`
  and `TasksRouter.UpdateCompletionDate` state what the code does.
- **No optimistic update.** The Kanban page does not move a card before the server answers.
  It changes its list only after the reply, and then only with the server's record
  (`RequestsPage.Page.DragEnd`).

## Model

| member | source | states |
|---|---|---|
| Decimal.ParseIntOfIntToString | backend/src/routes/tasks.router.ts:27 | `parseInt` reads back every integer that `toString` wrote in plain decimal, negative ones included (integers below 2^53 in magnitude; see Left out). |
| Decimal.DigitPrefixIsLongest | backend/src/routes/tasks.router.ts:27 | The digit run `parseInt` reads is all digits and stops only at the end of the text or at a non-digit. |
| Decimal.IntToStringInjective | frontend/lib/api.ts:123 | Distinct ids are written as distinct strings. |
| Decimal.IntToString | frontend/lib/api.ts:123 | The decimal text of an integer is non-empty and starts with `-` exactly when the integer is negative. |
| Dates.DaysInMonth | backend/src/routes/events.router.ts:17 | Month lengths are 28 to 31 days, and February has 29 days exactly in leap years. |
| Dates.MonthsFillYear | backend/src/routes/events.router.ts:16-17 | The twelve month lengths add up to the length of the year. |
| Dates.MonthWindowSpansMonth | backend/src/routes/events.router.ts:16-17 | For a month 1..12, the window runs from midnight on the 1st to 23:59:59 on the last day, because day 0 of the next month is the last day of this one. |
| Dates.MonthWindowMembership | backend/src/routes/events.router.ts:16-20 | An instant on one of the month's days is in the window exactly when it is not in the last 999 ms of the last day, which the window's 23:59:59.000 end leaves out. |
| Dates.MonthWindowRollsOver | backend/src/routes/events.router.ts:16-17 | A month number past 12 rolls into the next year, as the Date constructor does: month m + 12 of year y is month m of year y + 1. |
| Model.ParseStatus | backend/src/routes/tasks.router.ts:184-187 | A string is accepted exactly when it is the name of one of the four statuses. |
| Model.OrDefault | backend/src/routes/tasks.router.ts:105-108 | `x \|\| d` gives `x` when it is present and non-empty, and `d` otherwise. |
| Model.OrNull | backend/src/routes/tasks.router.ts:110 | `x \|\| null` gives null for an absent value or 0, and the value otherwise. |
| Model.WithoutPassword | backend/src/routes/users.router.ts:31-33 | The user returned to the client carries every field except the password. |
| Orm.InsertByRankAscending | backend/src/routes/tasks.router.ts:48 | Inserting by rank keeps a listing sorted. |
| Orm.InsertByRankMembers | backend/src/routes/tasks.router.ts:48 | Inserting by rank adds the new row, keeps every old row and brings in nothing else. |
| Orm.FindMany | backend/src/routes/tasks.router.ts:30-49 | `findMany(where, orderBy)` returns exactly the rows that match, as many as there are matching keys, sorted by the order key. |
| Orm.Take | backend/src/routes/equipment.router.ts:52-56 | `take: n` keeps a prefix of at most n rows, and the whole listing when it is shorter. |
| TasksRouter.BuildWhere | backend/src/routes/tasks.router.ts:10-28 | The `where` object selects exactly the tasks meeting every non-empty filter. It is unusable (NaN) exactly when the equipment id does not parse. |
| TasksRouter.ListTasks | backend/src/routes/tasks.router.ts:8-56 | Lists exactly the matching tasks, each once, newest first. It answers 500 "Failed to fetch tasks" exactly for an unparsable equipment id. |
| TasksRouter.NewestKept | backend/src/routes/dashboard.router.ts:47-48 | In a newest-first listing of every task, no task missing from the first n rows is newer than any of them. |
| TasksRouter.NewestRankOrder | backend/src/routes/tasks.router.ts:48 | Ascending by negated creation time means newest first. |
| TasksRouter.GetTask | backend/src/routes/tasks.router.ts:59-86 | Answers 500 for a non-numeric id, 404 "Task not found" for an unknown one, and otherwise the stored task. |
| TasksRouter.NewTaskDefaults | backend/src/routes/tasks.router.ts:101-112 | A body with only the required fields gives status New, priority Medium, team Maintenance, an empty description, no user and no completion date. |
| TasksRouter.NewTaskKeepsSuppliedValues | backend/src/routes/tasks.router.ts:101-112 | Supplied non-empty values are kept and a user id of 0 means none. The completion date starts empty even for a terminal status. |
| TasksRouter.CreateTask | backend/src/routes/tasks.router.ts:89-134 | Checks the equipment first (400 "Equipment not found"). A missing title or a user id with no user behind it gives 500 "Failed to create task". Otherwise it inserts the new task under the next id and advances the counter, and the store stays valid. |
| TasksRouter.UpdateCompletionDate | backend/src/routes/tasks.router.ts:141-153 | A full update never clears or stamps a completion date. It only takes a valid one the body supplies, and keeps id and creation fields. |
| TasksRouter.EmptyUpdateKeepsTask | backend/src/routes/tasks.router.ts:141-153 | An empty body changes nothing but `updatedAt`. |
| TasksRouter.UpdateTask | backend/src/routes/tasks.router.ts:137-176 | Answers 500 "Failed to update task" for a bad id, an invalid completion date or a dangling reference, changing nothing. Otherwise it replaces just that task by the updated row. |
| TasksRouter.ApplyStatusStampsCompletion | backend/src/routes/tasks.router.ts:191-194 | A move into Repaired or Scrap stamps the completion date with the current time. |
| TasksRouter.ApplyStatusKeepsCompletionOnReopen | backend/src/routes/tasks.router.ts:189-194 | A move into New or In Progress keeps the completion date as it was. |
| TasksRouter.ApplyStatusFrame | backend/src/routes/tasks.router.ts:189-199 | A status change touches only status, completion date and `updatedAt`. |
| TasksRouter.ApplyStatusIdempotentOnOpen | backend/src/routes/tasks.router.ts:189-194 | Repeating a non-terminal transition changes nothing more. |
| TasksRouter.PatchStatus | backend/src/routes/tasks.router.ts:179-221 | Answers 400 "Invalid status" for a missing status or anything but the four literals. Then it answers 500 for a non-numeric or unknown id. Otherwise it applies the transition to that one task; nothing changes on failure. |
| TasksRouter.DeleteTask | backend/src/routes/tasks.router.ts:224-235 | Removes exactly that task, or answers 500 "Failed to delete task" for a bad id and changes nothing. |
| EquipmentRouter.LowerIdempotent | backend/src/routes/equipment.router.ts:24-25 | Lower-casing twice is lower-casing once. |
| EquipmentRouter.ContainsInsensitiveCaseBlind | backend/src/routes/equipment.router.ts:24-25 | The insensitive `contains` ignores the case of both the text and the search term. |
| EquipmentRouter.ContainsInsensitiveOfSlice | backend/src/routes/equipment.router.ts:24-25 | Every piece of a name is found in it, whatever its case. |
| EquipmentRouter.ListEquipment | backend/src/routes/equipment.router.ts:8-44 | Lists exactly the equipment meeting status, category and name-or-serial search, each once, newest first, each with its task count. |
| EquipmentRouter.RecentTasksOfEquipment | backend/src/routes/equipment.router.ts:52-56 | `take: 5` of a newest-first listing of exactly an equipment's tasks keeps min(5, its task count) of them, newest first. None of its tasks left out is newer than one kept, and all are kept when it has five or fewer. |
| EquipmentRouter.GetEquipment | backend/src/routes/equipment.router.ts:47-69 | Answers 500 or 404 "Equipment not found". Otherwise it returns the equipment with min(5, its task count) of its own tasks, newest first. No task of it left out is newer than one shown, and all of them are shown when it has five or fewer. |
| EquipmentRouter.NewEquipmentDefaults | backend/src/routes/equipment.router.ts:85-93 | Missing fields default to an empty description and location, status Operational and category General. |
| EquipmentRouter.CreateEquipment | backend/src/routes/equipment.router.ts:72-101 | Gives 400 for a taken serial number and 500 for a missing serial or name. Otherwise it inserts under the next id and serial numbers stay unique. |
| EquipmentRouter.ApplyUpdateKeeps | backend/src/routes/equipment.router.ts:109-119 | An update keeps id and creation time, never clears a recorded maintenance date, and keeps the serial number unless the body gives one. |
| EquipmentRouter.UpdateEquipment | backend/src/routes/equipment.router.ts:104-127 | Answers 500 for a bad id, an invalid maintenance date or a serial clash, changing nothing. Otherwise it replaces just that row. |
| EquipmentRouter.DeleteEquipment | backend/src/routes/equipment.router.ts:130-141 | Removes exactly that row, or answers 500 and changes nothing. |
| UsersRouter.FindByEmail | backend/src/routes/users.router.ts:45-47 | The lookup by unique e-mail finds the one user with that address, or reports that none has it. |
| UsersRouter.NewUserDefaults | backend/src/routes/users.router.ts:22-29 | A registration without a role makes a Technician that stores the given name, e-mail and password. |
| UsersRouter.Register | backend/src/routes/users.router.ts:8-38 | Gives 400 for a taken e-mail and 500 for missing fields. Otherwise it answers 201 with the new user without its password, and e-mails stay unique. |
| UsersRouter.Login | backend/src/routes/users.router.ts:41-68 | A missing e-mail gives 500. Otherwise login succeeds exactly when a user has that e-mail and the stored password equals the given one, and returns that user without password. Every other case gives the same 401 "Invalid email or password". |
| UsersRouter.RegisterThenLogin | backend/src/routes/users.router.ts:8-63 | A registration keeps e-mails unique, and the lookup by its address then finds the new user, whose stored password is the one given, so login with the same credentials succeeds. |
| UsersRouter.RowsOfListing | backend/src/routes/users.router.ts:71-85 | The listing has one row per user, carrying the user's public fields and number of assigned tasks. |
| UsersRouter.ListUsers | backend/src/routes/users.router.ts:71-90 | Returns one row per user with the user's fields and task count. |
| UsersRouter.GetUser | backend/src/routes/users.router.ts:93-117 | Answers 500 or 404 "User not found". Otherwise it returns the user without password and exactly the tasks assigned to it. |
| UsersRouter.ApplyUpdateKeepsPassword | backend/src/routes/users.router.ts:124-127 | An update touches only name, e-mail and role, never the password. |
| UsersRouter.UpdateUser | backend/src/routes/users.router.ts:120-142 | Answers 500 for a bad id or an e-mail clash, changing nothing. Otherwise it replaces that user, and e-mails stay unique. |
| UsersRouter.DeleteUser | backend/src/routes/users.router.ts:145-157 | Removes exactly that user, or answers 500. |
| EventsRouter.BuildWhere | backend/src/routes/events.router.ts:10-25 | The `where` object selects exactly the events in the month window and of the event type. It is unusable exactly when month or year does not parse. |
| EventsRouter.ListEvents | backend/src/routes/events.router.ts:8-47 | Lists exactly the matching events, each once, earliest first. It answers 500 "Failed to fetch events" for an unparsable month or year. |
| EventsRouter.ListedEventInMonth | backend/src/routes/events.router.ts:15-21 | A listed event of a month query falls between the first midnight and the last second of that month. |
| EventsRouter.ClientMonthQuery | backend/src/routes/events.router.ts:16-17 | A month and year written by `toString` make a usable month query that reads back those numbers. |
| EventsRouter.NoMonthNoWindow | backend/src/routes/events.router.ts:15-24 | Without a truthy month and year, only the event type filters. |
| EventsRouter.GetEvent | backend/src/routes/events.router.ts:50-69 | Answers 500 or 404 "Event not found". Otherwise it returns the stored event. |
| EventsRouter.NewEventDefaults | backend/src/routes/events.router.ts:76-83 | An empty description and an equipment id of 0 become null, and a missing type becomes Preventive. |
| EventsRouter.CreateEvent | backend/src/routes/events.router.ts:72-100 | Answers 500 for a missing title or date or a dangling equipment id. Otherwise it inserts under the next id. |
| EventsRouter.RescheduleKeepsRest | backend/src/routes/events.router.ts:108-116 | Changing only the date keeps every other field. |
| EventsRouter.UpdateEvent | backend/src/routes/events.router.ts:103-133 | Answers 500 for a bad id, an invalid date or dangling equipment, changing nothing. Otherwise it replaces that event. |
| EventsRouter.DeleteEvent | backend/src/routes/events.router.ts:136-147 | Removes exactly that event, or answers 500. |
| DashboardRouter.TeamCountSplit | backend/src/routes/dashboard.router.ts:117-128 | Counting a team's tasks over two disjoint status sets adds up. |
| DashboardRouter.TeamCountAtMostTeamSize | backend/src/routes/dashboard.router.ts:117-128 | No count exceeds the number of the team's tasks. |
| DashboardRouter.StatusCountAtMostTotal | backend/src/routes/dashboard.router.ts:25-29 | No status count exceeds the total. |
| DashboardRouter.CompletionRate | backend/src/routes/dashboard.router.ts:63-66 | Gives `Math.round(repaired / total * 100)` with halves rounded up: the rate lies within half a point of the exact percentage. It gives 0 when there are no tasks. |
| DashboardRouter.CompletionRateBounds | backend/src/routes/dashboard.router.ts:63-66 | The rate is between 0 and 100. |
| DashboardRouter.CompletionRateExtremes | backend/src/routes/dashboard.router.ts:63-66 | All repaired gives 100, and none repaired gives 0. |
| DashboardRouter.StatsRateBounded | backend/src/routes/dashboard.router.ts:25-66 | The panel's repaired count never exceeds its total, so its rate is a percentage. |
| DashboardRouter.ActivityOf | backend/src/routes/dashboard.router.ts:94-102 | A feed line copies the task's fields. It shows the equipment's name when the equipment exists and its name is non-empty, and "Unknown" exactly when the equipment is missing or its name is empty (or is itself "Unknown"). The same holds for the user's name and "Unassigned". |
| DashboardRouter.RecentActivity | backend/src/routes/dashboard.router.ts:45-61 | The feed has min(5, tasks) lines, newest first. Each line is the feed line of a stored task, and no task left out is newer than a line shown. |
| DashboardRouter.FeedFromListing | backend/src/routes/dashboard.router.ts:94-102 | Feed lines made from the head of a newest-first listing of all tasks are in newest-first order and each belongs to a stored task. No task left out is newer than a line shown. |
| DashboardRouter.EquipmentCountsAtMostTotal | backend/src/routes/dashboard.router.ts:31-34 | The Operational, Maintenance Required and Broken counts together never exceed the number of equipment rows. |
| DashboardRouter.GetStats | backend/src/routes/dashboard.router.ts:8-103 | Gives the task counts, the equipment total with its Operational, Maintenance Required and Broken counts, the user count, the rate within 0..100, the fixed average repair time "2.4h" and the upcoming events. The feed has min(5, tasks) lines, newest first, each the feed line of a stored task, and no task left out is newer than a line shown. |
| DashboardRouter.TeamStats | backend/src/routes/dashboard.router.ts:113-135 | One entry per fixed team, in order, each the team's counts. |
| DashboardRouter.TeamStatsShape | backend/src/routes/dashboard.router.ts:113-135 | The summary names Mechanics, Electricians, IT and Maintenance, and each total is active plus completed. |
| DashboardRouter.TeamTotalCountsKnownStatuses | backend/src/routes/dashboard.router.ts:117-134 | A team's total counts exactly its tasks with one of the four statuses and never exceeds the team's task count. |
| ApiClient.SearchParams.Append | frontend/lib/api.ts:120-124 | An append adds one name/value pair at the end. |
| ApiClient.Encode | frontend/lib/api.ts:126 | The form encoding uses only unreserved characters, `+` and `%`, so it never produces `&`, `=` or `?`. |
| ApiClient.EncodeUnreserved | frontend/lib/api.ts:126 | Unreserved text is sent unchanged. |
| ApiClient.Serialize | frontend/lib/api.ts:126 | The query string is empty exactly when nothing was appended, and it never contains `?`. |
| ApiClient.FieldSplits | frontend/lib/api.ts:126 | One encoded pair holds no `&` or `?` and splits at `=` into its encoded name and value. |
| ApiClient.SerializeSplits | frontend/lib/api.ts:126 | The query splits back at `&` and `=` into exactly the encoded pairs, in the order they were appended. |
| ApiClient.QuestionMarkIffFields | frontend/lib/api.ts:126-127 | The endpoint carries `?` exactly when some parameter was appended. |
| ApiClient.TasksEndpoint | frontend/lib/api.ts:119-128 | Builds `/tasks` plus the query of the truthy parameters, in the order status, priority, team, equipmentId. |
| ApiClient.TaskFieldsReadBack | frontend/lib/api.ts:119-128 | The route reads back each filter the client sent and nothing for one it skipped. |
| ApiClient.TaskQueryRoundTrip | frontend/lib/api.ts:119-128 | The route's query selects exactly the tasks the client asked for, and an equipment id the client writes never triggers the 500. |
| ApiClient.TasksEndpointBare | frontend/lib/api.ts:119-128 | The bare `/tasks` is requested exactly when no parameter is truthy. An equipment id of 0 is skipped. |
| ApiClient.EquipmentEndpoint | frontend/lib/api.ts:79-87 | Builds `/equipment` plus the query of status, category and search. |
| ApiClient.EquipmentQueryRoundTrip | frontend/lib/api.ts:79-87 | The route reads back exactly the equipment filters the client set. |
| ApiClient.EventsEndpoint | frontend/lib/api.ts:167-175 | Builds `/events` plus the query of month, year and event type. |
| ApiClient.EventFieldsReadBack | frontend/lib/api.ts:167-175 | The route reads back each event filter the client sent. |
| ApiClient.NumberReadBack | frontend/lib/api.ts:167-175 | A number field the client writes is present exactly when the number is truthy, and then it parses back to that number. |
| ApiClient.EventQueryRoundTrip | frontend/lib/api.ts:167-175 | The route limits the listing to a month exactly when the client sent a non-zero month and year, and reads those numbers back unchanged. |
| ApiClient.RequestUrl | frontend/lib/api.ts:13-20 | The URL is the configured base, or `http://localhost:5001/api` when unset or empty, followed by the endpoint. |
| ApiClient.ErrorMessage | frontend/lib/api.ts:33-36 | The thrown message is the body's non-empty `error`, or "Request failed with status N". |
| ApiClient.Settle | frontend/lib/api.ts:33-38 | A 2xx reply resolves to its body, and every failure throws. |
| ApiClient.ServerMessageReachesClient | frontend/lib/api.ts:33-36 | Every route failure message reaches the user as written. |
| ApiClient.UpdateStatusReachesTask | frontend/lib/api.ts:153-157 | The PATCH endpoint splits into the status route's segments, and its id segment parses back to the task id. |
| Hooks.Replaced | frontend/lib/hooks.ts:109 | Mapping by id keeps the length and replaces exactly the records with that id. |
| Hooks.Removed | frontend/lib/hooks.ts:121 | Filtering by id keeps exactly the records with another id. |
| Hooks.RemovedConcat | frontend/lib/hooks.ts:121 | Removal keeps the survivors in list order. |
| Hooks.RemovedIdempotent | frontend/lib/hooks.ts:121 | Deleting twice is deleting once. |
| Hooks.RemovedLength | frontend/lib/hooks.ts:121 | Removal drops exactly as many records as carry the id. |
| Hooks.ReplaceThenRemove | frontend/lib/hooks.ts:107-122 | Updating then deleting a record is deleting it. |
| Hooks.CreateThenRemove | frontend/lib/hooks.ts:101-122 | Deleting a just-created record, prepended or appended, restores the list with that id removed. |
| Hooks.Prepend | frontend/lib/hooks.ts:103 | A created task or equipment goes in front, and an unloaded list becomes a one-element list. |
| Hooks.Append | frontend/lib/hooks.ts:142 | A created event goes at the end. |
| Hooks.ReplaceIn | frontend/lib/hooks.ts:109 | An update on an unloaded list leaves it unloaded. |
| Hooks.RemoveFrom | frontend/lib/hooks.ts:121 | A delete on an unloaded list leaves it unloaded. |
| Hooks.ApiData.constructor | frontend/lib/hooks.ts:23-25 | A hook starts with no data, loading and no error. |
| Hooks.ApiData.Refetch | frontend/lib/hooks.ts:27-38 | Success replaces the data and clears the error. Failure records the message and keeps the data. Loading is off afterwards. |
| Hooks.CreateFirst | frontend/lib/hooks.ts:101-105 | The list changes only once the call resolves, with the new record in front; a throw leaves it as it was. |
| Hooks.CreateLast | frontend/lib/hooks.ts:140-144 | The same for events, appended at the end. |
| Hooks.UpdateById | frontend/lib/hooks.ts:107-117 | On success every record with the id becomes the server's copy; a throw changes nothing. |
| Hooks.DeleteById | frontend/lib/hooks.ts:119-122 | On success every record with the id goes; a throw changes nothing. |
| Hooks.Auth.constructor | frontend/lib/hooks.ts:166-167 | The auth hook starts signed out and loading, over whatever local storage holds. |
| Hooks.Auth.Restore | frontend/lib/hooks.ts:170-181 | On mount a saved user is restored and an unreadable entry is discarded. |
| Hooks.Auth.Login | frontend/lib/hooks.ts:183-186 | Login sets and saves the user, so the session is authenticated. |
| Hooks.Auth.Logout | frontend/lib/hooks.ts:188-191 | Logout clears and forgets the user, so the session is not authenticated. |
| Hooks.ReloadAfterLogin | frontend/lib/hooks.ts:170-186 | A login survives a reload of the page. |
| Hooks.ReloadAfterLogout | frontend/lib/hooks.ts:170-191 | A logout survives a reload of the page. |
| Search.Find | frontend/app/dashboard/requests/page.tsx:62-68 | `find` by one field returns the first element whose field matches, or reports that none matches. The Kanban page searches tasks by written id and by id; the board component searches tickets by id in the same way. |
| RequestsPage.DropTarget | frontend/app/dashboard/requests/page.tsx:57-64 | A column literal is its own status. A card gives its task's status. An unknown id gives none. |
| RequestsPage.Requested | frontend/app/dashboard/requests/page.tsx:66-72 | An update is sent exactly for a non-empty target and a parsable, listed task whose status differs. |
| RequestsPage.Page.DragStart | frontend/app/dashboard/requests/page.tsx:42-44 | Records the dragged id. |
| RequestsPage.Page.DragEnd | frontend/app/dashboard/requests/page.tsx:46-81 | Sends exactly the requested update. A success replaces the task with the server's copy and touches neither error nor loading flag; a failure refetches. It always clears the dragged id. |
| RequestsPage.DropOnColumn | frontend/app/dashboard/requests/page.tsx:59-72 | A drop on a column asks for that column's status for a listed task in another column. |
| RequestsPage.DropOnOwnColumnIsIgnored | frontend/app/dashboard/requests/page.tsx:61-72 | A drop on a card of the same status sends nothing. |
| RequestsPage.DropTargetsAreValid | frontend/app/dashboard/requests/page.tsx:57-64 | Every status a drop asks for passes the status route's check. |
| RequestsPage.WithStatus | frontend/app/dashboard/requests/page.tsx:122 | A column holds exactly the tasks of its status. |
| RequestsPage.ColumnTasks | frontend/app/dashboard/requests/page.tsx:122 | An unloaded list shows empty columns. |
| RequestsPage.WithStatusConcat | frontend/app/dashboard/requests/page.tsx:122 | A column keeps list order. |
| RequestsPage.ColumnsPartition | frontend/app/dashboard/requests/page.tsx:83-128 | With the four statuses, the column counters add up to the number of tasks. |
| RequestsPage.ExactlyOneColumn | frontend/app/dashboard/requests/page.tsx:121-122 | A task with a valid status is in its own column and no other. |
| KanbanBoard.Without | frontend/components/kanban/Board.tsx:71 | Keeps exactly the tickets with another id. |
| KanbanBoard.WithoutLength | frontend/components/kanban/Board.tsx:71 | Removal drops as many tickets as carry the id. |
| KanbanBoard.LastFound | frontend/components/kanban/Board.tsx:41-44 | Drag start's answer is the first ticket with the id in the last column that holds it, or none when no column does. |
| KanbanBoard.SourceColumn | frontend/components/kanban/Board.tsx:58 | The source is the first column in key order that holds the ticket, or none when no column does. |
| KanbanBoard.DragStartMatchesDrop | frontend/components/kanban/Board.tsx:35-58 | With the ticket in at most one column, the ticket shown while dragging is the one a drop moves. |
| KanbanBoard.MovedShape | frontend/components/kanban/Board.tsx:67-74 | A move empties the source of the id, appends the ticket to the destination and leaves the other columns alone. |
| KanbanBoard.MovedTotal | frontend/components/kanban/Board.tsx:67-74 | A move keeps the number of tickets when the id is unique in its column. |
| KanbanBoard.Board.constructor | frontend/components/kanban/Board.tsx:9-25 | The board starts with the four sample columns and four tickets. |
| KanbanBoard.Board.DragStart | frontend/components/kanban/Board.tsx:35-47 | The loop over the columns sets the active ticket to `LastFound`'s answer. |
| KanbanBoard.Board.DragEnd | frontend/components/kanban/Board.tsx:49-77 | A drop outside the columns, and only that, changes nothing. With no source, an empty target or the same column, it only clears the drag. A drop on another existing column always moves the ticket; a drop on an id that is not a column throws. |
| KanbanBoard.MoveSampleTicket | frontend/components/kanban/Board.tsx:49-77 | On the sample board, dropping T-101 on Scrap moves it there from New and clears the drag. |
| CalendarPage.CalendarDays | frontend/app/dashboard/calendar/page.tsx:13-16 | The grid has 35 cells, and cells 3..32 hold days 1..30. |
| CalendarPage.GridLayout | frontend/app/dashboard/calendar/page.tsx:13-16 | Each day appears once, in increasing order, and the blanks are cells 0-2 and 33-34. |
| CalendarPage.TodayHighlight | frontend/app/dashboard/calendar/page.tsx:59 | On days 1..30 exactly one cell is highlighted, and on the 31st none is. |

## Left out

- Decimal.ParseIntOfIntToString: integers are unbounded in the model. JavaScript numbers are doubles: `toString` writes exponent notation from 1e21 on (which `parseInt` reads back as its leading digit), and `parseInt` rounds digit strings past 2^53. The round trip is promised only for the integers ids, months and years take, all far below 2^53.
- Decimal.IntToString: writes every integer in plain decimal; JavaScript's exponent form from 1e21 on is not modelled.
- Decimal.ParseInt: returns the exact value of the digit run; rounding to the nearest double past 2^53 is not modelled.
- I/O is not modelled: HTTP, JSON parsing, `fetch`, local storage and `console.error`. Requests and replies are values, and a call's outcome is a parameter.
- The clock is a parameter `now`, and the local time zone is taken to be UTC.
- Concurrency between requests is not modelled, and neither is React's batching of state updates. The page's `refetch()` after a failed status update is not awaited; the model completes it before the drop handler ends.
- Password hashing is not modelled: the code compares plain text, and so does the model.
- The `include`/`select` projections are not modelled: routes return whole records, not the narrowed equipment and user objects they join in.
- Foreign-key behaviour on delete is not modelled: deleting a row that others reference always succeeds in the model.
- JSON body typing is not modelled: fields are taken to have the types the code expects, for example a numeric `equipmentId`.
- Express's array-valued query parameters are not modelled: a repeated parameter is taken to be absent.
- The UI rendering of every page is not modelled.
- Dates.NewDate: the clipping of out-of-range instants to an invalid date is not modelled, so a month window for an astronomically large year is not rejected.
- Dates.NewDate: date strings in bodies are taken as already parsed: into an instant, or `None` for an invalid date in a create body. In an update body the date is a `Model.DateInput`, whose `InvalidDate` case makes the update answer 500.
- DashboardRouter.CompletionRate: computed on exact rationals. The code's floating-point division and multiplication can round a ratio lying exactly on .5 differently.
- EquipmentRouter.ContainsInsensitive: folds only ASCII letters, whereas the database folds case per Unicode.
- UsersRouter.ListUsers: the code gives no order, so the model lists users by id.
- ApiClient.TaskQueryRoundTrip: the server's percent-decoding is not modelled. The round-trip lemmas take the route to read back the pairs the client appended, and `ApiClient.SerializeSplits` proves the encoded pairs separate cleanly.
- ApiClient.Encode: no lone UTF-16 surrogates can occur, because Dafny characters are Unicode scalar values.
- KanbanBoard.Board.DragEnd: a destination that is not a column makes the state updater throw. The model answers `Threw` and leaves the state as it was; it does not model the crash of the component tree.
- The dashboard's `useDashboardStats` and `useTeamStats` hooks are modelled only through `Hooks.ApiData`, because they add nothing beyond it.
