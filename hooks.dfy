/** The client-side data hooks (frontend/lib/hooks.ts): the fetch state every list page
    holds, the way a mutation's reply is folded into the cached list, and the signed-in
    user kept in local storage. */
module Hooks {
  import opened Wrappers
  import opened Model
  import opened ApiClient

  // ---------- reconciling a cached list with a mutation's reply ----------

  /** `prev ? [x, ...prev] : [x]`: a created record goes in front. */
  function Prepend<T>(prev: Option<seq<T>>, x: T): (r: seq<T>)
    ensures |r| == |prev.GetOr([])| + 1 && r[0] == x && r[1..] == prev.GetOr([])
  {
    [x] + prev.GetOr([])
  }

  /** `prev ? [...prev, x] : [x]`: a created event goes at the end. */
  function Append<T>(prev: Option<seq<T>>, x: T): (r: seq<T>)
    ensures |r| == |prev.GetOr([])| + 1 && r[|r| - 1] == x && r[..|r| - 1] == prev.GetOr([])
  {
    prev.GetOr([]) + [x]
  }

  /** `s.map(e => e.id === id ? x : e)`. */
  function Replaced<T>(s: seq<T>, key: T -> int, id: int, x: T): (r: seq<T>)
    ensures |r| == |s|
    ensures forall i :: 0 <= i < |s| ==> r[i] == if key(s[i]) == id then x else s[i]
  {
    if s == [] then [] else [if key(s[0]) == id then x else s[0]] + Replaced(s[1..], key, id, x)
  }

  /** `s.filter(e => e.id !== id)`. */
  function Removed<T>(s: seq<T>, key: T -> int, id: int): (r: seq<T>)
    ensures |r| <= |s|
    ensures forall i :: 0 <= i < |r| ==> r[i] in s && key(r[i]) != id
    ensures forall i :: 0 <= i < |s| && key(s[i]) != id ==> s[i] in r
  {
    if s == [] then []
    else if key(s[0]) == id then Removed(s[1..], key, id)
    else [s[0]] + Removed(s[1..], key, id)
  }

  /** An update on a list that was never loaded leaves it unloaded. */
  function ReplaceIn<T>(prev: Option<seq<T>>, key: T -> int, id: int, x: T): (r: Option<seq<T>>)
    ensures r.None? <==> prev.None?
    ensures r.Some? ==> r.value == Replaced(prev.value, key, id, x)
  {
    if prev.Some? then Some(Replaced(prev.value, key, id, x)) else None
  }

  /** A deletion on a list that was never loaded leaves it unloaded. */
  function RemoveFrom<T>(prev: Option<seq<T>>, key: T -> int, id: int): (r: Option<seq<T>>)
    ensures r.None? <==> prev.None?
    ensures r.Some? ==> r.value == Removed(prev.value, key, id)
  {
    if prev.Some? then Some(Removed(prev.value, key, id)) else None
  }

  /** Removal keeps the survivors in their order: it distributes over concatenation. */
  lemma {:induction false} RemovedConcat<T>(a: seq<T>, b: seq<T>, key: T -> int, id: int)
    ensures Removed(a + b, key, id) == Removed(a, key, id) + Removed(b, key, id)
  {
    if a == [] {
      assert a + b == b;
    } else {
      assert (a + b)[1..] == a[1..] + b;
      RemovedConcat(a[1..], b, key, id);
    }
  }

  /** Removing an id no element carries changes nothing, so removal is idempotent. */
  lemma {:induction false} RemovedAbsent<T>(s: seq<T>, key: T -> int, id: int)
    requires forall i :: 0 <= i < |s| ==> key(s[i]) != id
    ensures Removed(s, key, id) == s
  {
    if s != [] {
      RemovedAbsent(s[1..], key, id);
      assert [s[0]] + s[1..] == s;
    }
  }

  lemma RemovedIdempotent<T>(s: seq<T>, key: T -> int, id: int)
    ensures Removed(Removed(s, key, id), key, id) == Removed(s, key, id)
  {
    var r := Removed(s, key, id);
    forall i | 0 <= i < |r| ensures key(r[i]) != id {
      assert r[i] in r;
    }
    RemovedAbsent(r, key, id);
  }

  /** The number of elements removal drops. */
  function CountId<T>(s: seq<T>, key: T -> int, id: int): (n: nat)
    ensures n <= |s|
  {
    if s == [] then 0 else (if key(s[0]) == id then 1 else 0) + CountId(s[1..], key, id)
  }

  /** Removal drops exactly the elements carrying the id. */
  lemma {:induction false} RemovedLength<T>(s: seq<T>, key: T -> int, id: int)
    ensures |Removed(s, key, id)| == |s| - CountId(s, key, id)
  {
    if s != [] {
      RemovedLength(s[1..], key, id);
    }
  }

  /** Replacing by a record with the same id and then deleting that id is the same as
      deleting it straight away. */
  lemma {:induction false} ReplaceThenRemove<T>(s: seq<T>, key: T -> int, id: int, x: T)
    requires key(x) == id
    ensures Removed(Replaced(s, key, id, x), key, id) == Removed(s, key, id)
  {
    if s != [] {
      ReplaceThenRemove(s[1..], key, id, x);
      var r := Replaced(s, key, id, x);
      assert r[1..] == Replaced(s[1..], key, id, x);
    }
  }

  /** Deleting a record just created, front or back, gives back the list as it was with
      that id removed. */
  lemma CreateThenRemove<T>(prev: Option<seq<T>>, key: T -> int, x: T)
    ensures Removed(Prepend(prev, x), key, key(x)) == Removed(prev.GetOr([]), key, key(x))
    ensures Removed(Append(prev, x), key, key(x)) == Removed(prev.GetOr([]), key, key(x))
  {
    var s := prev.GetOr([]);
    assert Prepend(prev, x)[1..] == s;
    RemovedConcat(s, [x], key, key(x));
    assert Removed([x], key, key(x)) == [];
  }

  // ---------- the fetch state of one hook ----------

  /** `useApiData`: the last data fetched, whether a fetch is running, and its error. */
  class ApiData<T> {
    var data: Option<T>
    var loading: bool
    var error: Option<string>

    /** On mount nothing is loaded yet and the first fetch is under way. */
    constructor ()
      ensures data == None && loading && error == None
    {
      data := None;
      loading := true;
      error := None;
    }

    /** `refetch`: `fetched` is how the call settled. A success replaces the data and
        clears the error; a failure records its message and keeps the old data. */
    method Refetch(fetched: Outcome<T>)
      modifies this
      ensures !loading
      ensures fetched.Resolved? ==> data == Some(fetched.value) && error == None
      ensures fetched.Thrown? ==> data == old(data) && error == Some(fetched.message)
    {
      loading := true;
      error := None;
      match fetched {
        case Resolved(result) =>
          data := Some(result);
        case Thrown(message) =>
          error := Some(message);
      }
      loading := false;
    }
  }

  function TaskId(t: Task): int { t.id }
  function EquipmentId(e: Equipment): int { e.id }
  function EventId(e: MaintenanceEvent): int { e.id }

  /** `createTask`/`createEquipment`: once the call resolves, the new record goes in front;
      a call that throws rethrows and leaves the list as it was. */
  method CreateFirst<T>(hook: ApiData<seq<T>>, reply: Outcome<T>) returns (r: Outcome<T>)
    modifies hook`data
    ensures r == reply
    ensures reply.Resolved? ==> hook.data == Some(Prepend(old(hook.data), reply.value))
    ensures reply.Thrown? ==> hook.data == old(hook.data)
  {
    if reply.Resolved? {
      hook.data := Some(Prepend(hook.data, reply.value));
    }
    return reply;
  }

  /** `createEvent`: the new event goes at the end. */
  method CreateLast<T>(hook: ApiData<seq<T>>, reply: Outcome<T>) returns (r: Outcome<T>)
    modifies hook`data
    ensures r == reply
    ensures reply.Resolved? ==> hook.data == Some(Append(old(hook.data), reply.value))
    ensures reply.Thrown? ==> hook.data == old(hook.data)
  {
    if reply.Resolved? {
      hook.data := Some(Append(hook.data, reply.value));
    }
    return reply;
  }

  /** `updateTask`, `updateTaskStatus`, `updateEquipment`, `updateEvent`: every record with
      the id is replaced by the server's copy. */
  method UpdateById<T>(hook: ApiData<seq<T>>, key: T -> int, id: int, reply: Outcome<T>) returns (r: Outcome<T>)
    modifies hook`data
    ensures r == reply
    ensures reply.Resolved? ==> hook.data == ReplaceIn(old(hook.data), key, id, reply.value)
    ensures reply.Thrown? ==> hook.data == old(hook.data)
  {
    if reply.Resolved? {
      hook.data := ReplaceIn(hook.data, key, id, reply.value);
    }
    return reply;
  }

  /** `deleteTask`, `deleteEquipment`, `deleteEvent`: every record with the id goes. */
  method DeleteById<T>(hook: ApiData<seq<T>>, key: T -> int, id: int, reply: Outcome<string>) returns (r: Outcome<string>)
    modifies hook`data
    ensures r == reply
    ensures reply.Resolved? ==> hook.data == RemoveFrom(old(hook.data), key, id)
    ensures reply.Thrown? ==> hook.data == old(hook.data)
  {
    if reply.Resolved? {
      hook.data := RemoveFrom(hook.data, key, id);
    }
    return reply;
  }

  // ---------- the signed-in user ----------

  /** What local storage holds under `gearguard_user`. */
  datatype Stored = Absent | Unreadable | Saved(user: PublicUser)

  /** `useAuth`: the signed-in user, mirrored in local storage. */
  class Auth {
    var user: Option<PublicUser>
    var loading: bool
    var storage: Stored

    constructor (storage0: Stored)
      ensures user == None && loading && storage == storage0
    {
      user := None;
      loading := true;
      storage := storage0;
    }

    predicate IsAuthenticated()
      reads this
    {
      user.Some?
    }

    /** The mount effect: a saved user is restored, an unreadable entry is discarded. */
    method Restore()
      modifies this
      ensures !loading
      ensures old(storage).Saved? ==> user == Some(old(storage).user) && storage == old(storage)
      ensures old(storage).Unreadable? ==> user == old(user) && storage == Absent
      ensures old(storage).Absent? ==> user == old(user) && storage == Absent
    {
      match storage {
        case Saved(u) =>
          user := Some(u);
        case Unreadable =>
          storage := Absent;
        case Absent =>
      }
      loading := false;
    }

    method Login(u: PublicUser)
      modifies this`user, this`storage
      ensures user == Some(u) && storage == Saved(u)
      ensures IsAuthenticated()
    {
      user := Some(u);
      storage := Saved(u);
    }

    method Logout()
      modifies this`user, this`storage
      ensures user == None && storage == Absent
      ensures !IsAuthenticated()
    {
      user := None;
      storage := Absent;
    }
  }

  /** A sign-in survives a reload: a fresh hook over the same storage restores the user. */
  method ReloadAfterLogin(u: PublicUser) returns (reloaded: Auth)
    ensures reloaded.user == Some(u) && reloaded.IsAuthenticated() && !reloaded.loading
  {
    var session := new Auth(Absent);
    session.Login(u);
    reloaded := new Auth(session.storage);
    reloaded.Restore();
  }

  /** A sign-out survives a reload: nothing is restored. */
  method ReloadAfterLogout(u: PublicUser) returns (reloaded: Auth)
    ensures reloaded.user == None && !reloaded.IsAuthenticated()
  {
    var session := new Auth(Absent);
    session.Login(u);
    session.Logout();
    reloaded := new Auth(session.storage);
    reloaded.Restore();
  }
}
