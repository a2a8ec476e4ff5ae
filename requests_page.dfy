/** The maintenance-request Kanban page (frontend/app/dashboard/requests/page.tsx): where a
    dropped card is sent, the status update that follows, and the four status columns the
    task list is grouped into. */
module RequestsPage {
  import opened Wrappers
  import opened Search
  import opened Model
  import opened Decimal
  import opened ApiClient
  import opened Hooks

  /** The column ids, which are also the status literals. */
  const Columns: seq<string> := ["New", "In Progress", "Repaired", "Scrap"]

  /** The card id of a task: its id written out. */
  function CardId(t: Task): string { IntToString(t.id) }

  /** The status a drop on `overId` asks for: the column's own literal, or the status of
      the card dropped on; nothing for an id that is neither. */
  function DropTarget(tasks: Option<seq<Task>>, overId: string): (s: Option<string>)
    ensures overId in Columns ==> s == Some(overId)
    ensures overId !in Columns ==> s == match Find(tasks.GetOr([]), CardId, overId)
      case Some(t) => Some(t.status)
      case None => None
  {
    if overId in Columns then Some(overId)
    else match Find(tasks.GetOr([]), CardId, overId)
      case Some(t) => Some(t.status)
      case None => None
  }

  /** The status update a drop requests, as (task id, new status): only for a non-empty
      target status, a dragged id that parses to a listed task, and a status that differs
      from the task's own. */
  function Requested(tasks: Option<seq<Task>>, activeId: string, target: Option<string>): (r: Option<(int, string)>)
    ensures r.Some? ==>
      && Truthy(target) && r.value.1 == target.value
      && ParseInt(activeId) == Some(r.value.0)
      && Find(tasks.GetOr([]), TaskId, r.value.0).Some?
      && Find(tasks.GetOr([]), TaskId, r.value.0).value.status != r.value.1
    ensures r.None? ==>
      || !Truthy(target) || ParseInt(activeId).None?
      || Find(tasks.GetOr([]), TaskId, ParseInt(activeId).value).None?
      || Find(tasks.GetOr([]), TaskId, ParseInt(activeId).value).value.status == target.value
  {
    if !Truthy(target) then None
    else match ParseInt(activeId)
      case None => None
      case Some(id) =>
        match Find(tasks.GetOr([]), TaskId, id)
        case None => None
        case Some(t) => if t.status != target.value then Some((id, target.value)) else None
  }

  /** The page's state: the id being dragged and the task hook it reads. */
  class Page {
    var activeId: Option<string>
    const tasks: ApiData<seq<Task>>

    constructor (tasks: ApiData<seq<Task>>)
      ensures this.tasks == tasks && activeId == None
    {
      this.tasks := tasks;
      activeId := None;
    }

    method DragStart(id: string)
      modifies this`activeId
      ensures activeId == Some(id)
    {
      activeId := Some(id);
    }

    /** `handleDragEnd`. `over` is the drop target, `reply` how the status update settles
        if one is sent, `refetched` how the reload after a failed update settles. The
        request sent, if any, is returned. */
    method DragEnd(active: string, over: Option<string>, reply: Outcome<Task>, refetched: Outcome<seq<Task>>)
      returns (sent: Option<(int, string)>)
      modifies this`activeId, tasks
      ensures activeId == None
      ensures over.None? ==> sent == None
      ensures over.Some? ==> sent == Requested(old(tasks.data), active, DropTarget(old(tasks.data), over.value))
      ensures sent.None? ==>
        tasks.data == old(tasks.data) && tasks.error == old(tasks.error) && tasks.loading == old(tasks.loading)
      ensures sent.Some? && reply.Resolved? ==>
        && tasks.data == ReplaceIn(old(tasks.data), TaskId, sent.value.0, reply.value)
        && tasks.error == old(tasks.error) && tasks.loading == old(tasks.loading)
      ensures sent.Some? && reply.Thrown? && refetched.Resolved? ==>
        tasks.data == Some(refetched.value) && tasks.error == None && !tasks.loading
      ensures sent.Some? && reply.Thrown? && refetched.Thrown? ==>
        tasks.data == old(tasks.data) && tasks.error == Some(refetched.message) && !tasks.loading
    {
      sent := None;
      if over.None? {
        activeId := None;
        return;
      }
      var target := DropTarget(tasks.data, over.value);
      sent := Requested(tasks.data, active, target);
      if sent.Some? {
        var r := UpdateById(tasks, TaskId, sent.value.0, reply);
        if r.Thrown? {
          tasks.Refetch(refetched);
        }
      }
      activeId := None;
    }
  }

  /** A drop on a column asks for that column's status, for a listed task in another
      column. */
  lemma DropOnColumn(tasks: seq<Task>, id: int, column: string)
    requires column in Columns
    ensures var r := Requested(Some(tasks), IntToString(id), DropTarget(Some(tasks), column));
      && (r.Some? <==> Find(tasks, TaskId, id).Some? && Find(tasks, TaskId, id).value.status != column)
      && (r.Some? ==> r.value == (id, column))
  {
    ParseIntOfIntToString(id);
    assert DropTarget(Some(tasks), column) == Some(column);
    assert Truthy(Some(column));
  }

  /** Dropping a card on another card of its own column sends nothing. */
  lemma DropOnOwnColumnIsIgnored(tasks: seq<Task>, dragged: int, target: Task)
    requires IntToString(target.id) !in Columns
    requires Find(tasks, CardId, IntToString(target.id)) == Some(target)
    requires Find(tasks, TaskId, dragged).Some? && Find(tasks, TaskId, dragged).value.status == target.status
    ensures Requested(Some(tasks), IntToString(dragged), DropTarget(Some(tasks), IntToString(target.id))) == None
  {
    ParseIntOfIntToString(dragged);
  }

  /** Every status a drop can ask for is one the status route accepts, provided the listed
      tasks hold valid statuses. */
  lemma DropTargetsAreValid(tasks: seq<Task>, overId: string)
    requires forall i :: 0 <= i < |tasks| ==> ParseStatus(tasks[i].status).Some?
    ensures DropTarget(Some(tasks), overId).Some? ==> ParseStatus(DropTarget(Some(tasks), overId).value).Some?
  {
    var found := Find(tasks, CardId, overId);
    if overId !in Columns && found.Some? {
      var i :| 0 <= i < |tasks| && tasks[i] == found.value;
    }
  }

  // ---------- the columns ----------

  /** `tasks.filter(t => t.status === column)`. */
  function WithStatus(tasks: seq<Task>, column: string): (r: seq<Task>)
    ensures |r| <= |tasks|
    ensures forall i :: 0 <= i < |r| ==> r[i] in tasks && r[i].status == column
    ensures forall i :: 0 <= i < |tasks| && tasks[i].status == column ==> tasks[i] in r
  {
    if tasks == [] then []
    else if tasks[0].status == column then [tasks[0]] + WithStatus(tasks[1..], column)
    else WithStatus(tasks[1..], column)
  }

  /** A column's cards; a list not loaded yet shows none. Its counter is this length. */
  function ColumnTasks(tasks: Option<seq<Task>>, column: string): (r: seq<Task>)
    ensures tasks.None? ==> r == []
    ensures tasks.Some? ==> r == WithStatus(tasks.value, column)
  {
    if tasks.Some? then WithStatus(tasks.value, column) else []
  }

  /** A column keeps list order: filtering distributes over concatenation. */
  lemma {:induction false} WithStatusConcat(a: seq<Task>, b: seq<Task>, column: string)
    ensures WithStatus(a + b, column) == WithStatus(a, column) + WithStatus(b, column)
  {
    if a == [] {
      assert a + b == b;
    } else {
      assert (a + b)[1..] == a[1..] + b;
      WithStatusConcat(a[1..], b, column);
    }
  }

  function ColumnSizes(tasks: seq<Task>): nat {
    |WithStatus(tasks, "New")| + |WithStatus(tasks, "In Progress")| + |WithStatus(tasks, "Repaired")| + |WithStatus(tasks, "Scrap")|
  }

  /** When every task holds one of the four statuses, the column counters add up to the
      number of tasks: no card is lost and none is shown twice. */
  lemma {:induction false} ColumnsPartition(tasks: seq<Task>)
    requires forall i :: 0 <= i < |tasks| ==> tasks[i].status in Columns
    ensures ColumnSizes(tasks) == |tasks|
  {
    if tasks != [] {
      var status := tasks[0].status;
      ColumnsPartition(tasks[1..]);
      WithStatusHead(tasks, "New");
      WithStatusHead(tasks, "In Progress");
      WithStatusHead(tasks, "Repaired");
      WithStatusHead(tasks, "Scrap");
      assert status == "New" || status == "In Progress" || status == "Repaired" || status == "Scrap";
    }
  }

  lemma WithStatusHead(tasks: seq<Task>, column: string)
    requires tasks != []
    ensures |WithStatus(tasks, column)| == |WithStatus(tasks[1..], column)| + if tasks[0].status == column then 1 else 0
  {
  }

  /** A task with one of the four statuses is in its own column and in no other. */
  lemma ExactlyOneColumn(tasks: seq<Task>, t: Task)
    requires t in tasks && t.status in Columns
    ensures forall c :: c in Columns ==> (t in WithStatus(tasks, c) <==> c == t.status)
  {
    forall c | c in Columns && t in WithStatus(tasks, c) ensures c == t.status {
      var r := WithStatus(tasks, c);
      var i :| 0 <= i < |r| && r[i] == t;
    }
    var i :| 0 <= i < |tasks| && tasks[i] == t;
  }
}
