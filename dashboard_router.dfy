/** The `/dashboard` routes (backend/src/routes/dashboard.router.ts): the statistics
    panel (counts, completion rate, recent activity) and the per-team workload summary. */
module DashboardRouter {
  import opened Wrappers
  import opened Model
  import opened Orm
  import TasksRouter

  /** The number of tasks of `team` whose status is in `statuses`
      (`task.count({ where: { team, status: { in: statuses } } })`). */
  function TeamCount(tasks: map<int, Task>, team: string, statuses: set<string>): nat {
    |TeamKeys(tasks, team, statuses)|
  }

  function TeamKeys(tasks: map<int, Task>, team: string, statuses: set<string>): (ks: set<int>)
    ensures ks <= tasks.Keys
  {
    set k | k in tasks && tasks[k].team == team && tasks[k].status in statuses
  }

  /** Counting over two disjoint status sets adds the two counts. */
  lemma TeamCountSplit(tasks: map<int, Task>, team: string, s1: set<string>, s2: set<string>)
    requires forall x :: x in s1 ==> x !in s2
    ensures TeamCount(tasks, team, s1 + s2) == TeamCount(tasks, team, s1) + TeamCount(tasks, team, s2)
  {
    var a, b := TeamKeys(tasks, team, s1), TeamKeys(tasks, team, s2);
    assert TeamKeys(tasks, team, s1 + s2) == a + b;
    forall k | k in a ensures k !in b {
      assert tasks[k].status in s1;
    }
    assert a * b == {};
  }

  /** A team's count over any status set is at most the number of its tasks. */
  lemma TeamCountAtMostTeamSize(tasks: map<int, Task>, team: string, statuses: set<string>)
    ensures TeamCount(tasks, team, statuses) <= |set k | k in tasks && tasks[k].team == team|
  {
    SubsetCard(TeamKeys(tasks, team, statuses), (set k | k in tasks && tasks[k].team == team));
  }

  /** The number of tasks with status `status` (`task.count({ where: { status } })`). */
  function StatusCount(tasks: map<int, Task>, status: string): nat {
    |set k | k in tasks && tasks[k].status == status|
  }

  /** No status is held by more tasks than there are. */
  lemma StatusCountAtMostTotal(tasks: map<int, Task>, status: string)
    ensures StatusCount(tasks, status) <= |tasks|
  {
    SubsetCard((set k | k in tasks && tasks[k].status == status), tasks.Keys);
  }

  function PriorityCount(tasks: map<int, Task>, priority: string): nat {
    |set k | k in tasks && tasks[k].priority == priority|
  }

  function EquipmentStatusCount(equipment: map<int, Equipment>, status: string): nat {
    |set k | k in equipment && equipment[k].status == status|
  }

  /** The three equipment statuses the panel counts are distinct, so together they count
      no row twice and never exceed the number of rows. */
  lemma EquipmentCountsAtMostTotal(equipment: map<int, Equipment>)
    ensures EquipmentStatusCount(equipment, "Operational") + EquipmentStatusCount(equipment, "Maintenance Required")
      + EquipmentStatusCount(equipment, "Broken") <= |equipment|
  {
    var a := set k | k in equipment && equipment[k].status == "Operational";
    var b := set k | k in equipment && equipment[k].status == "Maintenance Required";
    var c := set k | k in equipment && equipment[k].status == "Broken";
    assert "Operational" != "Maintenance Required" && "Operational" != "Broken" && "Maintenance Required" != "Broken";
    DisjointCard(a, b, c, equipment.Keys);
  }

  lemma DisjointCard(a: set<int>, b: set<int>, c: set<int>, all: set<int>)
    requires a <= all && b <= all && c <= all
    requires a * b == {} && a * c == {} && b * c == {}
    ensures |a| + |b| + |c| <= |all|
  {
    assert |a + b| == |a| + |b|;
    assert (a + b) * c == {};
    assert |a + b + c| == |a + b| + |c|;
    SubsetCard(a + b + c, all);
  }

  /** Events dated at or after `now`. */
  function UpcomingCount(events: map<int, MaintenanceEvent>, now: int): nat {
    |set k | k in events && events[k].eventDate >= now|
  }

  lemma {:induction false} SubsetCard(a: set<int>, b: set<int>)
    requires a <= b
    ensures |a| <= |b|
    decreases |b|
  {
    if a != {} {
      EmptyOrInhabited(a);
      var x :| x in a;
      SubsetCard(a - {x}, b - {x});
    }
  }

  /** `Math.round(repaired / total * 100)` when there are tasks, 0 otherwise; halves
      round up. */
  function CompletionRate(total: int, repaired: int): (rate: int)
    ensures total <= 0 ==> rate == 0
    ensures total > 0 ==> 2 * total * rate - total <= 200 * repaired < 2 * total * rate + total
  {
    if total > 0 then (200 * repaired + total) / (2 * total) else 0
  }

  /** Dividing out a positive factor keeps an inequality. */
  lemma MulCancel(t: int, x: int, y: int)
    requires t > 0 && t * x <= t * y
    ensures x <= y
  {
    assert t * y - t * x == t * (y - x);
  }

  /** Dividing out a positive factor keeps a strict inequality. */
  lemma MulCancelStrict(t: int, x: int, y: int)
    requires t > 0 && t * x < t * y
    ensures x < y
  {
    assert t * y - t * x == t * (y - x);
  }

  /** With no more repaired tasks than tasks, the rate is a percentage. */
  lemma CompletionRateBounds(total: int, repaired: int)
    requires 0 <= repaired <= total
    ensures 0 <= CompletionRate(total, repaired) <= 100
  {
    if total > 0 {
      var rate := CompletionRate(total, repaired);
      assert total * (2 * rate - 1) <= total * 200 by {
        assert 2 * total * rate - total == total * (2 * rate - 1);
      }
      MulCancel(total, 2 * rate - 1, 200);
      assert total * (-1) < total * (2 * rate + 1) by {
        assert 2 * total * rate + total == total * (2 * rate + 1);
      }
      MulCancel(total, -1, 2 * rate + 1);
    }
  }

  /** All tasks repaired gives 100, none repaired gives 0. */
  lemma CompletionRateExtremes(total: int)
    requires total > 0
    ensures CompletionRate(total, total) == 100 && CompletionRate(total, 0) == 0
  {
    var full := CompletionRate(total, total);
    assert total * (2 * full - 1) <= total * 200 by {
      assert 2 * total * full - total == total * (2 * full - 1);
    }
    MulCancel(total, 2 * full - 1, 200);
    assert total * 199 < total * (2 * full) by {
      assert 2 * total * full + total == total * (2 * full) + total;
    }
    MulCancelStrict(total, 199, 2 * full);
    var none := CompletionRate(total, 0);
    assert total * (2 * none - 1) <= total * 0 by {
      assert 2 * total * none - total == total * (2 * none - 1);
    }
    MulCancel(total, 2 * none - 1, 0);
    assert total * (-1) < total * (2 * none) by {
      assert 2 * total * none + total == total * (2 * none) + total;
    }
    MulCancelStrict(total, -1, 2 * none);
  }

  const ActiveStatuses: set<string> := {"New", "In Progress"}
  const CompletedStatuses: set<string> := {"Repaired", "Scrap"}

  datatype TeamStat = TeamStat(name: string, activeTasks: nat, completedTasks: nat, totalTasks: nat)

  function StatOf(tasks: map<int, Task>, team: string): TeamStat {
    var active := TeamCount(tasks, team, ActiveStatuses);
    var completed := TeamCount(tasks, team, CompletedStatuses);
    TeamStat(team, active, completed, active + completed)
  }

  /** GET /teams: one entry per team in the fixed order. */
  function TeamStats(tasks: map<int, Task>): (r: seq<TeamStat>)
    ensures |r| == |Teams|
    ensures forall i :: 0 <= i < |r| ==> r[i] == StatOf(tasks, Teams[i])
  {
    seq(|Teams|, i requires 0 <= i < |Teams| => StatOf(tasks, Teams[i]))
  }

  /** The summary names exactly the four teams, in order, and each total is the sum of the
      active and completed counts. */
  lemma TeamStatsShape(tasks: map<int, Task>)
    ensures var r := TeamStats(tasks);
      && [r[0].name, r[1].name, r[2].name, r[3].name] == ["Mechanics", "Electricians", "IT", "Maintenance"]
      && forall i :: 0 <= i < |r| ==> r[i].totalTasks == r[i].activeTasks + r[i].completedTasks
  {
  }

  /** A team's total counts exactly its tasks whose status is one of the four literals, so
      it never exceeds the number of tasks of that team; a task stored with any other
      status string is in neither count. */
  lemma TeamTotalCountsKnownStatuses(tasks: map<int, Task>, team: string)
    ensures forall x :: x in ActiveStatuses + CompletedStatuses <==> ParseStatus(x).Some?
    ensures StatOf(tasks, team).totalTasks == TeamCount(tasks, team, ActiveStatuses + CompletedStatuses)
    ensures StatOf(tasks, team).totalTasks <= |set k | k in tasks && tasks[k].team == team|
  {
    TeamCountSplit(tasks, team, ActiveStatuses, CompletedStatuses);
    TeamCountAtMostTeamSize(tasks, team, ActiveStatuses + CompletedStatuses);
  }

  /** One line of the activity feed. */
  datatype Activity = Activity(
    id: int,
    title: string,
    equipment: string,
    user: string,
    status: string,
    priority: string,
    createdAt: int)

  /** The feed line for `t`: the equipment's and user's names, with 'Unknown' and
      'Unassigned' standing in for a missing row or an empty name. */
  function ActivityOf(t: Task, equipment: map<int, Equipment>, users: map<int, User>): (a: Activity)
    ensures a.id == t.id && a.title == t.title && a.status == t.status && a.priority == t.priority && a.createdAt == t.createdAt
    ensures a.equipment == "Unknown" <==> t.equipmentId !in equipment || equipment[t.equipmentId].name in {"", "Unknown"}
    ensures a.user == "Unassigned" <==>
      t.userId.None? || t.userId.value !in users || users[t.userId.value].name in {"", "Unassigned"}
    ensures t.equipmentId in equipment && equipment[t.equipmentId].name != "" ==>
      a.equipment == equipment[t.equipmentId].name
    ensures t.userId.Some? && t.userId.value in users && users[t.userId.value].name != "" ==>
      a.user == users[t.userId.value].name
  {
    var equipmentName := if t.equipmentId in equipment then Some(equipment[t.equipmentId].name) else None;
    var userName := if t.userId.Some? && t.userId.value in users then Some(users[t.userId.value].name) else None;
    Activity(t.id, t.title, OrDefault(equipmentName, "Unknown"), OrDefault(userName, "Unassigned"), t.status, t.priority, t.createdAt)
  }

  datatype TaskCounts = TaskCounts(total: nat, newTasks: nat, inProgress: nat, repaired: nat, scrap: nat, critical: nat)
  datatype EquipmentCounts = EquipmentCounts(total: nat, operational: nat, maintenanceRequired: nat, broken: nat)
  datatype Stats = Stats(
    tasks: TaskCounts,
    equipment: EquipmentCounts,
    users: nat,
    completionRate: int,
    avgRepairTime: string,
    upcomingEvents: nat,
    recentActivity: seq<Activity>)

  function TaskCountsOf(tasks: map<int, Task>): TaskCounts {
    TaskCounts(|tasks|, StatusCount(tasks, "New"), StatusCount(tasks, "In Progress"),
      StatusCount(tasks, "Repaired"), StatusCount(tasks, "Scrap"), PriorityCount(tasks, "Critical"))
  }

  /** The repaired count never exceeds the total, so the panel's rate is a percentage. */
  lemma StatsRateBounded(tasks: map<int, Task>)
    ensures var c := TaskCountsOf(tasks);
      c.repaired <= c.total && 0 <= CompletionRate(c.total, c.repaired) <= 100
  {
    var c := TaskCountsOf(tasks);
    StatusCountAtMostTotal(tasks, "Repaired");
    CompletionRateBounds(c.total, c.repaired);
  }

  /** One feed line per row, in the rows' order. */
  function FeedLines(rows: seq<Task>, equipment: map<int, Equipment>, users: map<int, User>): (feed: seq<Activity>)
    ensures |feed| == |rows|
    ensures forall i :: 0 <= i < |rows| ==> feed[i] == ActivityOf(rows[i], equipment, users)
  {
    seq(|rows|, i requires 0 <= i < |rows| => ActivityOf(rows[i], equipment, users))
  }

  /** The feed lines made from the head of a newest-first listing of every task are stored
      tasks, newest first, and no task left out is newer than one shown. */
  lemma FeedFromListing(tasks: map<int, Task>, equipment: map<int, Equipment>, users: map<int, User>,
                        all: seq<Task>, feed: seq<Activity>)
    requires forall id :: id in tasks ==> tasks[id].id == id
    requires forall i :: 0 <= i < |all| ==> all[i] in tasks.Values
    requires forall k :: k in tasks ==> tasks[k] in all
    requires TasksRouter.NewestFirst(all) && |feed| <= |all|
    requires forall i :: 0 <= i < |feed| ==> feed[i] == ActivityOf(all[i], equipment, users)
    ensures forall i, j :: 0 <= i < j < |feed| ==> feed[i].createdAt >= feed[j].createdAt
    ensures forall i :: 0 <= i < |feed| ==>
      feed[i].id in tasks && feed[i] == ActivityOf(tasks[feed[i].id], equipment, users)
    ensures forall k, i :: (&& k in tasks && 0 <= i < |feed|
                            && forall j :: 0 <= j < |feed| ==> feed[j].id != k) ==>
      tasks[k].createdAt <= feed[i].createdAt
  {
    forall i | 0 <= i < |feed| ensures feed[i].id in tasks && feed[i] == ActivityOf(tasks[feed[i].id], equipment, users) {
      var id := KeyOfValue(tasks, all[i]);
      assert all[i].id == id;
    }
    assert forall j :: 0 <= j < |feed| ==> feed[j].id == all[j].id && feed[j].createdAt == all[j].createdAt;
    TasksRouter.NewestKept(tasks, all, |feed|);
  }

  /** The activity feed: `findMany` over all tasks, newest first, `take: 5`, each row
      turned into a feed line. */
  method RecentActivity(db: Database) returns (feed: seq<Activity>)
    requires db.Valid()
    ensures |feed| == if |db.tasks| < 5 then |db.tasks| else 5
    ensures forall i, j :: 0 <= i < j < |feed| ==> feed[i].createdAt >= feed[j].createdAt
    ensures forall i :: 0 <= i < |feed| ==>
      feed[i].id in db.tasks && feed[i] == ActivityOf(db.tasks[feed[i].id], db.equipment, db.users)
    ensures forall k, i :: (&& k in db.tasks && 0 <= i < |feed|
                            && forall j :: 0 <= j < |feed| ==> feed[j].id != k) ==>
      db.tasks[k].createdAt <= feed[i].createdAt
  {
    var tasks, equipment, users := db.tasks, db.equipment, db.users;
    var everything := (t: Task) => true;
    var all := FindMany(tasks, everything, TasksRouter.NewestRank);
    TasksRouter.NewestRankOrder(all);
    MatchingEveryKey(tasks, everything);
    var recent := Take(all, 5);
    feed := FeedLines(recent, equipment, users);
    assert forall i :: 0 <= i < |recent| ==> recent[i] == all[i];
    FeedFromListing(tasks, equipment, users, all, feed);
  }

  /** GET /stats: the counts, the completion rate over Repaired tasks only, the fixed
      average repair time, the events from `now` on, and the five newest tasks as feed
      lines, newest first. */
  method GetStats(db: Database, now: int) returns (res: Response<Stats>)
    requires db.Valid()
    ensures res.Success? && res.code == Ok
    ensures res.value.tasks == TaskCountsOf(db.tasks)
    ensures res.value.completionRate == CompletionRate(|db.tasks|, res.value.tasks.repaired)
    ensures 0 <= res.value.completionRate <= 100
    ensures res.value.users == |db.users|
    ensures res.value.upcomingEvents == UpcomingCount(db.events, now)
    ensures res.value.equipment == EquipmentCounts(|db.equipment|,
      EquipmentStatusCount(db.equipment, "Operational"),
      EquipmentStatusCount(db.equipment, "Maintenance Required"),
      EquipmentStatusCount(db.equipment, "Broken"))
    ensures res.value.avgRepairTime == "2.4h"
    ensures |res.value.recentActivity| == if |db.tasks| < 5 then |db.tasks| else 5
    ensures forall i, j :: 0 <= i < j < |res.value.recentActivity| ==>
      res.value.recentActivity[i].createdAt >= res.value.recentActivity[j].createdAt
    ensures forall i :: 0 <= i < |res.value.recentActivity| ==>
      var a := res.value.recentActivity[i];
      a.id in db.tasks && a == ActivityOf(db.tasks[a.id], db.equipment, db.users)
    ensures forall k, i :: (&& k in db.tasks && 0 <= i < |res.value.recentActivity|
                            && forall j :: 0 <= j < |res.value.recentActivity| ==> res.value.recentActivity[j].id != k) ==>
      db.tasks[k].createdAt <= res.value.recentActivity[i].createdAt
  {
    var counts := TaskCountsOf(db.tasks);
    var equipmentCounts := EquipmentCounts(|db.equipment|,
      EquipmentStatusCount(db.equipment, "Operational"),
      EquipmentStatusCount(db.equipment, "Maintenance Required"),
      EquipmentStatusCount(db.equipment, "Broken"));
    var upcoming := UpcomingCount(db.events, now);
    var feed := RecentActivity(db);
    StatsRateBounded(db.tasks);
    var rate := CompletionRate(counts.total, counts.repaired);
    return Success(Ok, Stats(counts, equipmentCounts, |db.users|, rate, "2.4h", upcoming, feed));
  }
}
