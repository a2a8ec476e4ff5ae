/** The browser's API client (frontend/lib/api.ts): the query strings the `getAll` calls
    build with `URLSearchParams`, the request URL, the message a failed request throws,
    and the shape of the status update the Kanban board sends. */
module ApiClient {
  import opened Wrappers
  import opened Model
  import opened Decimal
  import TasksRouter
  import EquipmentRouter
  import EventsRouter

  // ---------- splitting and joining on a separator ----------

  /** `s.split(sep)`: the pieces between occurrences of `sep`, at least one. */
  function Split(s: string, sep: char): (parts: seq<string>)
    ensures |parts| >= 1
    decreases |s|
  {
    if s == [] then [""]
    else
      var rest := Split(s[1..], sep);
      if s[0] == sep then [""] + rest else [[s[0]] + rest[0]] + rest[1..]
  }

  /** `parts.join(sep)`. */
  function Join(parts: seq<string>, sep: char): string
    requires |parts| >= 1
  {
    if |parts| == 1 then parts[0] else parts[0] + [sep] + Join(parts[1..], sep)
  }

  /** A piece free of the separator is split off whole in front of what follows it. */
  lemma {:induction false} SplitFront(p: string, rest: string, sep: char)
    requires sep !in p
    ensures Split(p + [sep] + rest, sep) == [p] + Split(rest, sep)
    ensures Split(p, sep) == [p]
    decreases |p|
  {
    if p == [] {
      assert p + [sep] + rest == [sep] + rest;
      assert ([sep] + rest)[1..] == rest;
    } else {
      SplitFront(p[1..], rest, sep);
      assert (p + [sep] + rest)[1..] == p[1..] + [sep] + rest;
      assert [p[0]] + p[1..] == p;
    }
  }

  /** Splitting undoes joining when no piece contains the separator. */
  lemma {:induction false} SplitJoin(parts: seq<string>, sep: char)
    requires |parts| >= 1
    requires forall i :: 0 <= i < |parts| ==> sep !in parts[i]
    ensures Split(Join(parts, sep), sep) == parts
    decreases |parts|
  {
    if |parts| == 1 {
      SplitFront(parts[0], "", sep);
    } else {
      SplitJoin(parts[1..], sep);
      SplitFront(parts[0], Join(parts[1..], sep), sep);
      assert [parts[0]] + parts[1..] == parts;
    }
  }

  lemma {:induction false} JoinAvoids(parts: seq<string>, sep: char, c: char)
    requires |parts| >= 1 && c != sep
    requires forall i :: 0 <= i < |parts| ==> c !in parts[i]
    ensures c !in Join(parts, sep)
    decreases |parts|
  {
    if |parts| > 1 {
      JoinAvoids(parts[1..], sep, c);
    }
  }

  // ---------- application/x-www-form-urlencoded ----------

  /** The characters the form encoder leaves as they are. */
  predicate Unreserved(c: char) {
    ('a' <= c <= 'z') || ('A' <= c <= 'Z') || ('0' <= c <= '9') || c == '*' || c == '-' || c == '.' || c == '_'
  }

  /** What may appear in an encoded name or value. */
  predicate EncodedChar(c: char) {
    Unreserved(c) || c == '+' || c == '%'
  }

  /** The UTF-8 bytes of a code point. */
  function Utf8(c: char): (bytes: seq<int>)
    ensures 1 <= |bytes| <= 4
    ensures forall i :: 0 <= i < |bytes| ==> 0 <= bytes[i] < 256
    ensures c as int < 128 <==> |bytes| == 1
  {
    var n := c as int;
    if n < 0x80 then [n]
    else if n < 0x800 then [0xC0 + n / 64, 0x80 + n % 64]
    else if n < 0x10000 then [0xE0 + n / 4096, 0x80 + (n / 64) % 64, 0x80 + n % 64]
    else [0xF0 + n / 262144, 0x80 + (n / 4096) % 64, 0x80 + (n / 64) % 64, 0x80 + n % 64]
  }

  function HexDigit(d: int): (c: char)
    requires 0 <= d < 16
    ensures Unreserved(c)
  {
    if d < 10 then (48 + d) as char else (55 + d) as char
  }

  /** `%XX` for each byte, upper-case hexadecimal. */
  function PercentEncode(bytes: seq<int>): (s: string)
    requires forall i :: 0 <= i < |bytes| ==> 0 <= bytes[i] < 256
    ensures |s| == 3 * |bytes|
    ensures forall i :: 0 <= i < |s| ==> EncodedChar(s[i])
  {
    if bytes == [] then []
    else ['%', HexDigit(bytes[0] / 16), HexDigit(bytes[0] % 16)] + PercentEncode(bytes[1..])
  }

  function EncodeChar(c: char): (s: string)
    ensures forall i :: 0 <= i < |s| ==> EncodedChar(s[i])
    ensures |s| >= 1
  {
    if c == ' ' then "+"
    else if Unreserved(c) then [c]
    else PercentEncode(Utf8(c))
  }

  /** The form encoding of a name or value. */
  function Encode(s: string): (r: string)
    ensures forall i :: 0 <= i < |r| ==> EncodedChar(r[i])
    ensures |r| >= |s|
  {
    if s == [] then [] else EncodeChar(s[0]) + Encode(s[1..])
  }

  /** Unreserved characters pass through untouched. */
  lemma {:induction false} EncodeUnreserved(s: string)
    requires forall i :: 0 <= i < |s| ==> Unreserved(s[i])
    ensures Encode(s) == s
  {
    if s != [] {
      EncodeUnreserved(s[1..]);
      assert [s[0]] + s[1..] == s;
    }
  }

  /** `name=value` with both sides encoded. */
  function Field(pair: (string, string)): (f: string) {
    Encode(pair.0) + "=" + Encode(pair.1)
  }

  /** One encoded field per pair, in order. */
  function Fields(pairs: seq<(string, string)>): (fields: seq<string>)
    ensures |fields| == |pairs|
    ensures forall i :: 0 <= i < |pairs| ==> fields[i] == Field(pairs[i])
  {
    seq(|pairs|, i requires 0 <= i < |pairs| => Field(pairs[i]))
  }

  /** A character the encoding never produces does not occur in an encoded string. */
  lemma EncodedAvoids(s: string, c: char)
    requires !EncodedChar(c)
    ensures c !in Encode(s)
  {
    var e := Encode(s);
    assert forall j :: 0 <= j < |e| ==> EncodedChar(e[j]);
  }

  /** An encoded field holds no `&` and no `?`, and splits at `=` into its encoded name and
      value. */
  lemma FieldSplits(pair: (string, string))
    ensures '&' !in Field(pair) && '?' !in Field(pair)
    ensures Split(Field(pair), '=') == [Encode(pair.0), Encode(pair.1)]
  {
    var k, v := Encode(pair.0), Encode(pair.1);
    EncodedAvoids(pair.0, '&');
    EncodedAvoids(pair.1, '&');
    EncodedAvoids(pair.0, '?');
    EncodedAvoids(pair.1, '?');
    EncodedAvoids(pair.0, '=');
    EncodedAvoids(pair.1, '=');
    assert Field(pair) == k + ['='] + v;
    assert Field(pair) == Join([k, v], '=');
    SplitJoin([k, v], '=');
  }

  /** `URLSearchParams.toString()`: the encoded fields joined by `&`, empty for no fields. */
  function Serialize(pairs: seq<(string, string)>): (s: string)
    ensures s == [] <==> pairs == []
    ensures '?' !in s
  {
    if pairs == [] then []
    else
      var fields := Fields(pairs);
      forall i | 0 <= i < |fields| ensures '?' !in fields[i] {
        FieldSplits(pairs[i]);
      }
      JoinAvoids(fields, '&', '?');
      assert fields[0][|Encode(pairs[0].0)|] == '=';
      JoinNonEmpty(fields, '&');
      Join(fields, '&')
  }

  lemma {:induction false} JoinNonEmpty(parts: seq<string>, sep: char)
    requires |parts| >= 1 && parts[0] != []
    ensures Join(parts, sep) != []
  {
  }

  /** The serialized query splits back, at `&` and then at `=`, into exactly the encoded
      names and values in the order they were appended. */
  lemma SerializeSplits(pairs: seq<(string, string)>)
    requires pairs != []
    ensures var fields := Split(Serialize(pairs), '&');
      && |fields| == |pairs|
      && forall i :: 0 <= i < |pairs| ==> Split(fields[i], '=') == [Encode(pairs[i].0), Encode(pairs[i].1)]
  {
    var fields := Fields(pairs);
    forall i | 0 <= i < |fields|
      ensures '&' !in fields[i] && Split(fields[i], '=') == [Encode(pairs[i].0), Encode(pairs[i].1)]
    {
      FieldSplits(pairs[i]);
    }
    SplitJoin(fields, '&');
  }

  /** `URLSearchParams`: the name/value pairs in the order they were appended. */
  class SearchParams {
    var pairs: seq<(string, string)>

    constructor ()
      ensures pairs == []
    {
      pairs := [];
    }

    method Append(name: string, value: string)
      modifies this
      ensures pairs == old(pairs) + [(name, value)]
    {
      pairs := pairs + [(name, value)];
    }

    function ToString(): (s: string)
      reads this
      ensures s == [] <==> pairs == []
    {
      Serialize(pairs)
    }
  }

  /** The endpoint with its query: `?` only in front of a non-empty query. */
  function WithQuery(path: string, query: string): (endpoint: string)
    ensures query == [] ==> endpoint == path
    ensures query != [] ==> endpoint == path + "?" + query
  {
    path + (if query != [] then "?" + query else "")
  }

  /** The endpoint has a `?` exactly when some field was appended. */
  lemma QuestionMarkIffFields(path: string, pairs: seq<(string, string)>)
    requires '?' !in path
    ensures '?' in WithQuery(path, Serialize(pairs)) <==> pairs != []
  {
    var q := Serialize(pairs);
    if pairs != [] {
      assert WithQuery(path, q)[|path|] == '?';
    }
  }

  /** A number parameter is sent when it is truthy: present and not 0. */
  predicate TruthyNumber(n: Option<int>) {
    n.Some? && n.value != 0
  }

  // ---------- tasksApi.getAll ----------

  datatype TaskParams = TaskParams(status: Option<string>, priority: Option<string>, team: Option<string>, equipmentId: Option<int>)

  function StringField(name: string, value: Option<string>): seq<(string, string)> {
    if Truthy(value) then [(name, value.value)] else []
  }

  function NumberField(name: string, value: Option<int>): seq<(string, string)> {
    if TruthyNumber(value) then [(name, IntToString(value.value))] else []
  }

  /** The fields `tasksApi.getAll` appends, in its order, skipping falsy values. */
  function TaskFields(p: TaskParams): seq<(string, string)> {
    StringField("status", p.status) + StringField("priority", p.priority)
      + StringField("team", p.team) + NumberField("equipmentId", p.equipmentId)
  }

  /** Builds the endpoint the way `tasksApi.getAll` does, one `append` at a time. */
  method TasksEndpoint(p: TaskParams) returns (endpoint: string)
    ensures endpoint == WithQuery("/tasks", Serialize(TaskFields(p)))
  {
    var params := new SearchParams();
    if Truthy(p.status) {
      params.Append("status", p.status.value);
    }
    assert params.pairs == StringField("status", p.status);
    if Truthy(p.priority) {
      params.Append("priority", p.priority.value);
    }
    assert params.pairs == StringField("status", p.status) + StringField("priority", p.priority);
    if Truthy(p.team) {
      params.Append("team", p.team.value);
    }
    assert params.pairs == StringField("status", p.status) + StringField("priority", p.priority)
      + StringField("team", p.team);
    if TruthyNumber(p.equipmentId) {
      params.Append("equipmentId", IntToString(p.equipmentId.value));
    }
    assert params.pairs == TaskFields(p);
    var query := params.ToString();
    endpoint := "/tasks" + (if query != [] then "?" + query else "");
  }

  /** The first value sent under `name`, as the server reads it back. */
  function Lookup(pairs: seq<(string, string)>, name: string): (v: Option<string>)
    ensures v.Some? ==> exists i :: 0 <= i < |pairs| && pairs[i] == (name, v.value)
    ensures v.None? ==> forall i :: 0 <= i < |pairs| ==> pairs[i].0 != name
  {
    if pairs == [] then None
    else if pairs[0].0 == name then Some(pairs[0].1)
    else Lookup(pairs[1..], name)
  }

  /** The first of two field lists that sends `name` decides its value. */
  lemma {:induction false} LookupConcat(a: seq<(string, string)>, b: seq<(string, string)>, name: string)
    ensures Lookup(a + b, name) == if Lookup(a, name).Some? then Lookup(a, name) else Lookup(b, name)
  {
    if a == [] {
      assert a + b == b;
    } else {
      assert (a + b)[1..] == a[1..] + b;
      LookupConcat(a[1..], b, name);
    }
  }

  /** A string field answers for its own name only, and only when it was sent. */
  lemma LookupStringField(k: string, v: Option<string>, name: string)
    ensures Lookup(StringField(k, v), name) == if name == k && Truthy(v) then v else None
  {
  }

  lemma LookupNumberField(k: string, v: Option<int>, name: string)
    ensures Lookup(NumberField(k, v), name) == if name == k && TruthyNumber(v) then Some(IntToString(v.value)) else None
  {
  }

  /** The route reads back each task filter the client sent, and nothing for one it left out. */
  lemma TaskFieldsReadBack(p: TaskParams)
    ensures var f := TaskFields(p);
      && Lookup(f, "status") == (if Truthy(p.status) then p.status else None)
      && Lookup(f, "priority") == (if Truthy(p.priority) then p.priority else None)
      && Lookup(f, "team") == (if Truthy(p.team) then p.team else None)
      && Lookup(f, "equipmentId") == (if TruthyNumber(p.equipmentId) then Some(IntToString(p.equipmentId.value)) else None)
  {
    var s, pr, t, e := StringField("status", p.status), StringField("priority", p.priority), StringField("team", p.team), NumberField("equipmentId", p.equipmentId);
    var names := ["status", "priority", "team", "equipmentId"];
    forall i | 0 <= i < 4
      ensures Lookup(TaskFields(p), names[i]) == if Lookup(s, names[i]).Some? then Lookup(s, names[i])
        else if Lookup(pr, names[i]).Some? then Lookup(pr, names[i])
        else if Lookup(t, names[i]).Some? then Lookup(t, names[i]) else Lookup(e, names[i])
    {
      LookupConcat(s + pr + t, e, names[i]);
      LookupConcat(s + pr, t, names[i]);
      LookupConcat(s, pr, names[i]);
    }
    forall i | 0 <= i < 4
      ensures Lookup(s, names[i]) == if i == 0 && Truthy(p.status) then p.status else None
      ensures Lookup(pr, names[i]) == if i == 1 && Truthy(p.priority) then p.priority else None
      ensures Lookup(t, names[i]) == if i == 2 && Truthy(p.team) then p.team else None
      ensures Lookup(e, names[i]) == if i == 3 && TruthyNumber(p.equipmentId) then Some(IntToString(p.equipmentId.value)) else None
    {
      LookupStringField("status", p.status, names[i]);
      LookupStringField("priority", p.priority, names[i]);
      LookupStringField("team", p.team, names[i]);
      LookupNumberField("equipmentId", p.equipmentId, names[i]);
    }
    assert names[0] == "status" && names[1] == "priority" && names[2] == "team" && names[3] == "equipmentId";
  }

  /** The tasks a call to `tasksApi.getAll(p)` asks for. */
  predicate Intended(p: TaskParams, t: Task) {
    && (Truthy(p.status) ==> t.status == p.status.value)
    && (Truthy(p.priority) ==> t.priority == p.priority.value)
    && (Truthy(p.team) ==> t.team == p.team.value)
    && (TruthyNumber(p.equipmentId) ==> t.equipmentId == p.equipmentId.value)
  }

  /** The query the route reads back from the client's fields selects exactly the tasks
      the client asked for; a number the client writes is the number the route parses,
      and the route never answers 500 for it. */
  lemma TaskQueryRoundTrip(p: TaskParams)
    ensures var f := TaskFields(p);
      var q := TasksRouter.TaskQuery(Lookup(f, "status"), Lookup(f, "priority"), Lookup(f, "team"), Lookup(f, "equipmentId"));
      && !(Truthy(q.equipmentId) && ParseInt(q.equipmentId.value).None?)
      && forall t :: TasksRouter.MatchesQuery(q, t) <==> Intended(p, t)
  {
    TaskFieldsReadBack(p);
    var f := TaskFields(p);
    var q := TasksRouter.TaskQuery(Lookup(f, "status"), Lookup(f, "priority"), Lookup(f, "team"), Lookup(f, "equipmentId"));
    if TruthyNumber(p.equipmentId) {
      var n := p.equipmentId.value;
      ParseIntOfIntToString(n);
      assert q.equipmentId == Some(IntToString(n));
    } else {
      assert q.equipmentId == None;
    }
    forall t
      ensures TasksRouter.MatchesQuery(q, t) <==> Intended(p, t)
    {
    }
  }

  /** With no truthy parameter the endpoint is the bare path; `equipmentId: 0` is falsy. */
  lemma TasksEndpointBare(p: TaskParams)
    ensures WithQuery("/tasks", Serialize(TaskFields(p))) == "/tasks"
      <==> !Truthy(p.status) && !Truthy(p.priority) && !Truthy(p.team) && !TruthyNumber(p.equipmentId)
  {
    QuestionMarkIffFields("/tasks", TaskFields(p));
  }

  // ---------- equipmentApi.getAll ----------

  datatype EquipmentParams = EquipmentParams(status: Option<string>, category: Option<string>, search: Option<string>)

  function EquipmentFields(p: EquipmentParams): seq<(string, string)> {
    StringField("status", p.status) + StringField("category", p.category) + StringField("search", p.search)
  }

  method EquipmentEndpoint(p: EquipmentParams) returns (endpoint: string)
    ensures endpoint == WithQuery("/equipment", Serialize(EquipmentFields(p)))
  {
    var params := new SearchParams();
    if Truthy(p.status) {
      params.Append("status", p.status.value);
    }
    assert params.pairs == StringField("status", p.status);
    if Truthy(p.category) {
      params.Append("category", p.category.value);
    }
    assert params.pairs == StringField("status", p.status) + StringField("category", p.category);
    if Truthy(p.search) {
      params.Append("search", p.search.value);
    }
    assert params.pairs == EquipmentFields(p);
    var query := params.ToString();
    endpoint := "/equipment" + (if query != [] then "?" + query else "");
  }

  /** The route reads back exactly the equipment filters the client set. */
  lemma EquipmentQueryRoundTrip(p: EquipmentParams)
    ensures var f := EquipmentFields(p);
      EquipmentRouter.EquipmentQuery(Lookup(f, "status"), Lookup(f, "category"), Lookup(f, "search"))
        == EquipmentRouter.EquipmentQuery(
             if Truthy(p.status) then p.status else None,
             if Truthy(p.category) then p.category else None,
             if Truthy(p.search) then p.search else None)
  {
    var s, c, q := StringField("status", p.status), StringField("category", p.category), StringField("search", p.search);
    var names := ["status", "category", "search"];
    forall i | 0 <= i < 3
      ensures Lookup(EquipmentFields(p), names[i]) == if Lookup(s, names[i]).Some? then Lookup(s, names[i])
        else if Lookup(c, names[i]).Some? then Lookup(c, names[i]) else Lookup(q, names[i])
    {
      LookupConcat(s + c, q, names[i]);
      LookupConcat(s, c, names[i]);
    }
    forall i | 0 <= i < 3
      ensures Lookup(s, names[i]) == if i == 0 && Truthy(p.status) then p.status else None
      ensures Lookup(c, names[i]) == if i == 1 && Truthy(p.category) then p.category else None
      ensures Lookup(q, names[i]) == if i == 2 && Truthy(p.search) then p.search else None
    {
      LookupStringField("status", p.status, names[i]);
      LookupStringField("category", p.category, names[i]);
      LookupStringField("search", p.search, names[i]);
    }
    assert names[0] == "status" && names[1] == "category" && names[2] == "search";
  }

  // ---------- eventsApi.getAll ----------

  datatype EventParams = EventParams(month: Option<int>, year: Option<int>, eventType: Option<string>)

  function EventFields(p: EventParams): seq<(string, string)> {
    NumberField("month", p.month) + NumberField("year", p.year) + StringField("eventType", p.eventType)
  }

  method EventsEndpoint(p: EventParams) returns (endpoint: string)
    ensures endpoint == WithQuery("/events", Serialize(EventFields(p)))
  {
    var params := new SearchParams();
    if TruthyNumber(p.month) {
      params.Append("month", IntToString(p.month.value));
    }
    assert params.pairs == NumberField("month", p.month);
    if TruthyNumber(p.year) {
      params.Append("year", IntToString(p.year.value));
    }
    assert params.pairs == NumberField("month", p.month) + NumberField("year", p.year);
    if Truthy(p.eventType) {
      params.Append("eventType", p.eventType.value);
    }
    assert params.pairs == EventFields(p);
    var query := params.ToString();
    endpoint := "/events" + (if query != [] then "?" + query else "");
  }

  /** The route reads back each event filter the client sent, and nothing for one it left out. */
  lemma EventFieldsReadBack(p: EventParams)
    ensures var f := EventFields(p);
      && Lookup(f, "month") == (if TruthyNumber(p.month) then Some(IntToString(p.month.value)) else None)
      && Lookup(f, "year") == (if TruthyNumber(p.year) then Some(IntToString(p.year.value)) else None)
      && Lookup(f, "eventType") == (if Truthy(p.eventType) then p.eventType else None)
  {
    var m, y, t := NumberField("month", p.month), NumberField("year", p.year), StringField("eventType", p.eventType);
    var names := ["month", "year", "eventType"];
    forall i | 0 <= i < 3
      ensures Lookup(EventFields(p), names[i]) == if Lookup(m, names[i]).Some? then Lookup(m, names[i])
        else if Lookup(y, names[i]).Some? then Lookup(y, names[i]) else Lookup(t, names[i])
    {
      LookupConcat(m + y, t, names[i]);
      LookupConcat(m, y, names[i]);
    }
    forall i | 0 <= i < 3
      ensures Lookup(m, names[i]) == if i == 0 && TruthyNumber(p.month) then Some(IntToString(p.month.value)) else None
      ensures Lookup(y, names[i]) == if i == 1 && TruthyNumber(p.year) then Some(IntToString(p.year.value)) else None
      ensures Lookup(t, names[i]) == if i == 2 && Truthy(p.eventType) then p.eventType else None
    {
      LookupNumberField("month", p.month, names[i]);
      LookupNumberField("year", p.year, names[i]);
      LookupStringField("eventType", p.eventType, names[i]);
    }
    assert names[0] == "month" && names[1] == "year" && names[2] == "eventType";
  }

  /** A number field as the route reads it back: present and non-empty exactly when the
      number was sent, and then parsing back to it. */
  lemma NumberReadBack(n: Option<int>, v: Option<string>)
    requires v == if TruthyNumber(n) then Some(IntToString(n.value)) else None
    ensures Truthy(v) <==> TruthyNumber(n)
    ensures Truthy(v) ==> ParseInt(v.value) == n
  {
    if TruthyNumber(n) {
      ParseIntOfIntToString(n.value);
    }
  }

  /** The route limits the listing to a month exactly when the client sent a non-zero
      month and year, and then to the window of that month and year; month 0 means "all". */
  lemma EventQueryRoundTrip(p: EventParams)
    ensures var f := EventFields(p);
      var q := EventsRouter.EventQuery(Lookup(f, "month"), Lookup(f, "year"), Lookup(f, "eventType"));
      && (EventsRouter.HasMonth(q) <==> TruthyNumber(p.month) && TruthyNumber(p.year))
      && !EventsRouter.BadMonth(q)
      && (EventsRouter.HasMonth(q) ==>
            ParseInt(q.month.value) == p.month && ParseInt(q.year.value) == p.year)
  {
    var f := EventFields(p);
    EventFieldsReadBack(p);
    NumberReadBack(p.month, Lookup(f, "month"));
    NumberReadBack(p.year, Lookup(f, "year"));
  }

  // ---------- apiRequest ----------

  const DefaultBaseUrl: string := "http://localhost:5001/api"

  /** The request URL: the configured base, or the default one when the variable is unset
      or empty, followed by the endpoint. */
  function RequestUrl(env: Option<string>, endpoint: string): (url: string)
    ensures Truthy(env) ==> url == env.value + endpoint
    ensures !Truthy(env) ==> url == DefaultBaseUrl + endpoint
  {
    OrDefault(env, DefaultBaseUrl) + endpoint
  }

  /** What `apiRequest` settles to: the decoded body, or a thrown error. */
  datatype Outcome<T> = Resolved(value: T) | Thrown(message: string)

  /** The message thrown for a response that is not ok: the body's `error` when it is a
      non-empty string, otherwise one naming the status code. */
  function ErrorMessage(error: Option<string>, status: int): (m: string)
    ensures Truthy(error) ==> m == error.value
    ensures !Truthy(error) ==> m == "Request failed with status " + IntToString(status)
  {
    OrDefault(error, "Request failed with status " + IntToString(status))
  }

  /** `response.ok` is a status in 200..299. */
  function Settle<T>(res: Response<T>): (o: Outcome<T>)
    ensures res.Success? && 200 <= res.code <= 299 ==> o == Resolved(res.value)
    ensures res.Failure? ==> o == Thrown(ErrorMessage(Some(res.error), res.code))
  {
    match res
    case Success(code, value) =>
      if 200 <= code <= 299 then Resolved(value) else Thrown(ErrorMessage(None, code))
    case Failure(code, error) => Thrown(ErrorMessage(Some(error), code))
  }

  /** Every failure a route answers carries a non-empty `error`, so the client throws the
      route's own message; an empty one gives way to the status message. */
  lemma ServerMessageReachesClient<T>(code: int, error: string)
    ensures error != "" ==> Settle(Response<T>.Failure(code, error)) == Thrown(error)
    ensures error == "" ==> Settle(Response<T>.Failure(code, error)) == Thrown("Request failed with status " + IntToString(code))
  {
  }

  // ---------- tasksApi.updateStatus ----------

  /** A request: HTTP method, endpoint and, for this call, the status carried by the JSON body. */
  datatype StatusRequest = StatusRequest(verb: string, endpoint: string, status: string)

  function UpdateStatusRequest(id: int, status: string): StatusRequest {
    StatusRequest("PATCH", "/tasks/" + IntToString(id) + "/status", status)
  }

  /** A written-out integer holds no `/`. */
  lemma IntToStringNoSlash(id: int)
    ensures '/' !in IntToString(id)
  {
    if id < 0 {
      assert IntToString(id) == "-" + NatToString(-id);
    }
  }

  /** The status route's path, joined at `/`. */
  lemma StatusPathJoin(s: string)
    ensures Join(["", "tasks", s, "status"], '/') == "/tasks/" + s + "/status"
  {
    var parts := ["", "tasks", s, "status"];
    assert parts[1..][1..][1..] == ["status"];
    assert Join(parts[1..][1..], '/') == s + "/status";
    assert Join(parts[1..], '/') == "tasks/" + s + "/status";
  }

  /** The endpoint splits into the route's segments, and the id segment parses back to the
      task id, so the PATCH reaches the status route for that very task. */
  lemma UpdateStatusReachesTask(id: int, status: string)
    ensures var r := UpdateStatusRequest(id, status);
      && r.verb == "PATCH"
      && Split(r.endpoint, '/') == ["", "tasks", IntToString(id), "status"]
      && ParseInt(Split(r.endpoint, '/')[2]) == Some(id)
  {
    var s := IntToString(id);
    IntToStringNoSlash(id);
    StatusPathJoin(s);
    SplitJoin(["", "tasks", s, "status"], '/');
    ParseIntOfIntToString(id);
  }
}
