/** The object-relational mapper the routes call, reduced to what they rely on: four
    tables keyed by autoincrement id, unique serial numbers and e-mail addresses, and
    `findMany` with a filter and an ordering. */
module Orm {
  import opened Wrappers
  import opened Model

  /** `s` is ordered by non-decreasing `rank`. */
  predicate Ascending<T>(s: seq<T>, rank: T -> int) {
    forall i, j :: 0 <= i < j < |s| ==> rank(s[i]) <= rank(s[j])
  }

  /** The index in front of the first element of `s` ranked at or above `x`. */
  function InsertPosition<T>(x: T, s: seq<T>, rank: T -> int): (p: nat)
    ensures p <= |s|
    ensures forall i :: 0 <= i < p ==> rank(s[i]) < rank(x)
    ensures p < |s| ==> rank(x) <= rank(s[p])
  {
    if s == [] || rank(x) <= rank(s[0]) then 0 else 1 + InsertPosition(x, s[1..], rank)
  }

  /** Puts `x` into `s` in front of the first element ranked at or above it. */
  function InsertByRank<T>(x: T, s: seq<T>, rank: T -> int): (r: seq<T>)
    ensures |r| == |s| + 1
  {
    var p := InsertPosition(x, s, rank);
    s[..p] + [x] + s[p..]
  }

  /** Inserting into an ordered sequence keeps it ordered. */
  lemma InsertByRankAscending<T>(x: T, s: seq<T>, rank: T -> int)
    requires Ascending(s, rank)
    ensures Ascending(InsertByRank(x, s, rank), rank)
  {
    var p := InsertPosition(x, s, rank);
    var r := InsertByRank(x, s, rank);
    assert forall i :: 0 <= i < p ==> r[i] == s[i];
    assert r[p] == x;
    assert forall i :: p < i < |r| ==> r[i] == s[i - 1];
    forall i, j | 0 <= i < j < |r| ensures rank(r[i]) <= rank(r[j]) {
      if j <= p {
        assert rank(r[i]) < rank(x);
      } else if i > p {
        assert rank(s[i - 1]) <= rank(s[j - 1]);
      } else {
        assert rank(r[i]) <= rank(x) <= rank(s[p]) <= rank(s[j - 1]);
      }
    }
  }

  /** The keys of the rows that `keep` selects. */
  function MatchingKeys<T>(table: map<int, T>, keep: T -> bool): (ks: set<int>)
    ensures ks <= table.Keys
  {
    set k | k in table && keep(table[k])
  }

  /** What `FindMany` has gathered once it has visited every key outside `rest`. */
  ghost predicate Gathered<T>(table: map<int, T>, keep: T -> bool, rank: T -> int, r: seq<T>, rest: set<int>) {
    && rest <= table.Keys
    && Ascending(r, rank)
    && (forall i :: 0 <= i < |r| ==> r[i] in table.Values && keep(r[i]))
    && (forall k :: k in table && k !in rest && keep(table[k]) ==> table[k] in r)
    && |r| == |MatchingKeys(table, keep) - rest|
  }

  /** Visiting key `k` adds it to the visited part of `all` exactly when it belongs to `all`. */
  lemma VisitedStep(all: set<int>, rest: set<int>, k: int)
    requires k in rest
    ensures k in all ==> k !in all - rest && all - (rest - {k}) == (all - rest) + {k}
    ensures k !in all ==> all - (rest - {k}) == all - rest
  {
  }

  /** Inserting keeps every element, adds `x` and nothing else. */
  lemma InsertByRankMembers<T>(x: T, s: seq<T>, rank: T -> int)
    ensures var r := InsertByRank(x, s, rank);
      && x in r
      && (forall y :: y in s ==> y in r)
      && (forall i :: 0 <= i < |r| ==> r[i] == x || r[i] in s)
  {
    var p := InsertPosition(x, s, rank);
    assert s == s[..p] + s[p..];
  }

  /** Visiting a key whose row is selected, and inserting that row, keeps `Gathered`. */
  lemma GatherKept<T>(table: map<int, T>, keep: T -> bool, rank: T -> int, r: seq<T>, rest: set<int>, k: int)
    requires Gathered(table, keep, rank, r, rest)
    requires k in rest && keep(table[k])
    ensures Gathered(table, keep, rank, InsertByRank(table[k], r, rank), rest - {k})
  {
    var r' := InsertByRank(table[k], r, rank);
    InsertByRankAscending(table[k], r, rank);
    InsertByRankMembers(table[k], r, rank);
    assert table[k] in table.Values;
    forall i | 0 <= i < |r'| ensures r'[i] in table.Values && keep(r'[i]) {
      if r'[i] != table[k] {
        var j :| 0 <= j < |r| && r[j] == r'[i];
      }
    }
    VisitedStep(MatchingKeys(table, keep), rest, k);
  }

  /** Visiting a key whose row is not selected keeps `Gathered` as it is. */
  lemma GatherSkipped<T>(table: map<int, T>, keep: T -> bool, rank: T -> int, r: seq<T>, rest: set<int>, k: int)
    requires Gathered(table, keep, rank, r, rest)
    requires k in rest && !keep(table[k])
    ensures Gathered(table, keep, rank, r, rest - {k})
  {
    VisitedStep(MatchingKeys(table, keep), rest, k);
  }

  /** A filter that keeps every row selects every key. */
  lemma MatchingEveryKey<T>(table: map<int, T>, keep: T -> bool)
    requires forall t :: keep(t)
    ensures MatchingKeys(table, keep) == table.Keys
  {
  }

  /** Before any key is visited nothing is gathered. */
  lemma GatherStart<T>(table: map<int, T>, keep: T -> bool, rank: T -> int)
    ensures Gathered(table, keep, rank, [], table.Keys)
  {
    assert MatchingKeys(table, keep) - table.Keys == {};
  }

  /** Once every key is visited, the gathered rows are exactly the selected ones. */
  lemma GatherDone<T>(table: map<int, T>, keep: T -> bool, rank: T -> int, r: seq<T>)
    requires Gathered(table, keep, rank, r, {})
    ensures Ascending(r, rank)
    ensures forall i :: 0 <= i < |r| ==> r[i] in table.Values && keep(r[i])
    ensures forall k :: k in table && keep(table[k]) ==> table[k] in r
    ensures |r| == |MatchingKeys(table, keep)|
  {
    assert MatchingKeys(table, keep) - {} == MatchingKeys(table, keep);
  }

  /** `findMany({ where: keep, orderBy: rank asc })`: every selected row once, ordered by
      rank. A descending order is a rank that negates the field. */
  method FindMany<T(==)>(table: map<int, T>, keep: T -> bool, rank: T -> int) returns (r: seq<T>)
    ensures Ascending(r, rank)
    ensures forall i :: 0 <= i < |r| ==> r[i] in table.Values && keep(r[i])
    ensures forall k :: k in table && keep(table[k]) ==> table[k] in r
    ensures |r| == |MatchingKeys(table, keep)|
  {
    r := [];
    var rest := table.Keys;
    GatherStart(table, keep, rank);
    while rest != {}
      invariant Gathered(table, keep, rank, r, rest)
      decreases rest
    {
      var k := Pick(rest);
      if keep(table[k]) {
        GatherKept(table, keep, rank, r, rest, k);
        r := InsertByRank(table[k], r, rank);
      } else {
        GatherSkipped(table, keep, rank, r, rest, k);
      }
      rest := rest - {k};
    }
    GatherDone(table, keep, rank, r);
  }

  lemma EmptyOrInhabited(s: set<int>)
    ensures s == {} || exists k :: k in s
  {
    if forall k :: k !in s {
      assert s == {};
    }
  }

  /** A value of a map sits under some key. */
  lemma KeyOfValue<T>(m: map<int, T>, v: T) returns (k: int)
    requires v in m.Values
    ensures k in m && m[k] == v
  {
    if forall j :: j in m ==> m[j] != v {
      assert false;
    }
    k :| k in m && m[k] == v;
  }

  /** Some element of a non-empty set: the order in which the database visits rows. */
  method Pick(s: set<int>) returns (k: int)
    requires s != {}
    ensures k in s
  {
    EmptyOrInhabited(s);
    k :| k in s;
  }

  /** At most the first `n` elements of `s`, as `take: n` returns them. */
  function Take<T>(s: seq<T>, n: nat): (r: seq<T>)
    ensures |r| <= n && |r| <= |s|
    ensures |r| == n || r == s
    ensures r <= s
  {
    if |s| <= n then s else s[..n]
  }

  ghost predicate SerialsUnique(equipment: map<int, Equipment>) {
    forall a, b :: a in equipment && b in equipment && equipment[a].serialNumber == equipment[b].serialNumber ==> a == b
  }

  ghost predicate EmailsUnique(users: map<int, User>) {
    forall a, b :: a in users && b in users && users[a].email == users[b].email ==> a == b
  }

  /** The database: four tables and the next autoincrement id of each. */
  class Database {
    var tasks: map<int, Task>
    var equipment: map<int, Equipment>
    var users: map<int, User>
    var events: map<int, MaintenanceEvent>
    var nextTaskId: int
    var nextEquipmentId: int
    var nextUserId: int
    var nextEventId: int

    /** Every row sits under its own id, every id was handed out already, and the
        unique columns are unique. */
    ghost predicate Valid()
      reads this
    {
      && 1 <= nextTaskId && 1 <= nextEquipmentId && 1 <= nextUserId && 1 <= nextEventId
      && (forall id :: id in tasks ==> tasks[id].id == id && 0 < id < nextTaskId)
      && (forall id :: id in equipment ==> equipment[id].id == id && 0 < id < nextEquipmentId)
      && (forall id :: id in users ==> users[id].id == id && 0 < id < nextUserId)
      && (forall id :: id in events ==> events[id].id == id && 0 < id < nextEventId)
      && SerialsUnique(equipment)
      && EmailsUnique(users)
    }

    constructor ()
      ensures Valid()
      ensures tasks == map[] && equipment == map[] && users == map[] && events == map[]
      ensures nextTaskId == 1 && nextEquipmentId == 1 && nextUserId == 1 && nextEventId == 1
    {
      tasks, equipment, users, events := map[], map[], map[], map[];
      nextTaskId, nextEquipmentId, nextUserId, nextEventId := 1, 1, 1, 1;
    }

    /** `task.update`: the row with `t`'s id is overwritten by `t`. */
    method PutTask(t: Task)
      requires Valid() && t.id in tasks
      modifies this`tasks
      ensures Valid() && tasks == old(tasks)[t.id := t]
    {
      tasks := tasks[t.id := t];
    }
  }
}
