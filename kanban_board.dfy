/** The stand-alone Kanban board component (frontend/components/kanban/Board.tsx): columns of
    tickets kept in local state, the ticket picked up when a drag starts, and the move a
    drop makes. */
module KanbanBoard {
  import opened Wrappers
  import opened Search

  datatype Ticket = Ticket(id: string, title: string, machine: string, priority: string, dueDate: string)

  function TicketId(t: Ticket): string { t.id }

  /** `list.filter(t => t.id !== id)`. */
  function Without(list: seq<Ticket>, id: string): (r: seq<Ticket>)
    ensures forall i :: 0 <= i < |r| ==> r[i] in list && r[i].id != id
    ensures forall i :: 0 <= i < |list| && list[i].id != id ==> list[i] in r
  {
    if list == [] then []
    else if list[0].id == id then Without(list[1..], id)
    else [list[0]] + Without(list[1..], id)
  }

  /** How many tickets of `list` carry the id. */
  function Occurrences(list: seq<Ticket>, id: string): nat {
    if list == [] then 0 else (if list[0].id == id then 1 else 0) + Occurrences(list[1..], id)
  }

  lemma {:induction false} WithoutLength(list: seq<Ticket>, id: string)
    ensures |Without(list, id)| == |list| - Occurrences(list, id)
  {
    if list != [] {
      WithoutLength(list[1..], id);
    }
  }

  predicate Distinct(keys: seq<string>) {
    forall i, j :: 0 <= i < j < |keys| ==> keys[i] != keys[j]
  }

  predicate KeysIn(keys: seq<string>, columns: map<string, seq<Ticket>>) {
    forall i :: 0 <= i < |keys| ==> keys[i] in columns
  }

  /** What drag start settles on after visiting the columns `keys` in order: the ticket from
      the last column that holds the id. */
  function LastFound(keys: seq<string>, columns: map<string, seq<Ticket>>, id: string): (r: Option<Ticket>)
    requires KeysIn(keys, columns)
    ensures r.Some? ==> r.value.id == id
    ensures r.Some? ==>
      exists j :: (&& 0 <= j < |keys| && r == Find(columns[keys[j]], TicketId, id)
                   && forall k :: j < k < |keys| ==> Find(columns[keys[k]], TicketId, id).None?)
    ensures r.None? ==> forall j :: 0 <= j < |keys| ==> Find(columns[keys[j]], TicketId, id).None?
  {
    if keys == [] then None
    else
      var found := Find(columns[keys[|keys| - 1]], TicketId, id);
      if found.Some? then found else LastFound(keys[..|keys| - 1], columns, id)
  }

  /** `Object.keys(columns).find(key => columns[key].some(t => t.id === id))`. */
  function SourceColumn(keys: seq<string>, columns: map<string, seq<Ticket>>, id: string): (r: Option<string>)
    requires KeysIn(keys, columns)
    ensures r.Some? ==> r.value in keys && Find(columns[r.value], TicketId, id).Some?
    ensures r.Some? ==>
      exists j :: (&& 0 <= j < |keys| && keys[j] == r.value
                   && forall k :: 0 <= k < j ==> Find(columns[keys[k]], TicketId, id).None?)
    ensures r.None? ==> forall j :: 0 <= j < |keys| ==> Find(columns[keys[j]], TicketId, id).None?
  {
    if keys == [] then None
    else if Find(columns[keys[0]], TicketId, id).Some? then Some(keys[0])
    else SourceColumn(keys[1..], columns, id)
  }

  /** When at most one column holds the id, the ticket drag start shows is the one a drop
      would take from its source column. */
  lemma DragStartMatchesDrop(keys: seq<string>, columns: map<string, seq<Ticket>>, id: string)
    requires KeysIn(keys, columns)
    requires forall i, j :: (0 <= i < |keys| && 0 <= j < |keys| && Find(columns[keys[i]], TicketId, id).Some?
      && Find(columns[keys[j]], TicketId, id).Some?) ==> keys[i] == keys[j]
    ensures var source := SourceColumn(keys, columns, id);
      LastFound(keys, columns, id) == if source.Some? then Find(columns[source.value], TicketId, id) else None
  {
    var source := SourceColumn(keys, columns, id);
    var last := LastFound(keys, columns, id);
    if last.Some? {
      var j :| 0 <= j < |keys| && last == Find(columns[keys[j]], TicketId, id);
      assert source.Some?;
      var i :| 0 <= i < |keys| && keys[i] == source.value;
      assert keys[i] == keys[j];
    }
  }

  /** The columns after moving ticket `id` from `source` to the end of `dest`. */
  function Moved(columns: map<string, seq<Ticket>>, source: string, dest: string, id: string): map<string, seq<Ticket>>
    requires source in columns && dest in columns && Find(columns[source], TicketId, id).Some?
  {
    var ticket := Find(columns[source], TicketId, id).value;
    columns[source := Without(columns[source], id)][dest := columns[dest] + [ticket]]
  }

  /** A move takes every copy of the ticket out of the source, puts the first one at the end
      of the destination, and leaves every other column as it was. */
  lemma MovedShape(columns: map<string, seq<Ticket>>, source: string, dest: string, id: string)
    requires source in columns && dest in columns && Find(columns[source], TicketId, id).Some?
    requires source != dest
    ensures var m := Moved(columns, source, dest, id);
      && m.Keys == columns.Keys
      && m[source] == Without(columns[source], id)
      && (forall i :: 0 <= i < |m[source]| ==> m[source][i].id != id)
      && m[dest] == columns[dest] + [Find(columns[source], TicketId, id).value]
      && m[dest][|m[dest]| - 1].id == id
      && forall k :: k in columns && k != source && k != dest ==> m[k] == columns[k]
  {
  }

  /** The number of tickets on the board, column by column in key order. */
  function Total(keys: seq<string>, columns: map<string, seq<Ticket>>): nat
    requires KeysIn(keys, columns)
  {
    if keys == [] then 0 else |columns[keys[0]]| + Total(keys[1..], columns)
  }

  lemma {:induction false} TotalFrame(keys: seq<string>, columns: map<string, seq<Ticket>>, k: string, v: seq<Ticket>)
    requires KeysIn(keys, columns) && k !in keys
    ensures Total(keys, columns[k := v]) == Total(keys, columns)
  {
    if keys != [] {
      TotalFrame(keys[1..], columns, k, v);
    }
  }

  /** Changing one column changes the total by the change in its length. */
  lemma {:induction false} TotalUpdate(keys: seq<string>, columns: map<string, seq<Ticket>>, k: string, v: seq<Ticket>)
    requires KeysIn(keys, columns) && Distinct(keys) && k in keys
    ensures Total(keys, columns[k := v]) == Total(keys, columns) - |columns[k]| + |v|
  {
    if keys[0] == k {
      assert k !in keys[1..];
      TotalFrame(keys[1..], columns, k, v);
    } else {
      TotalUpdate(keys[1..], columns, k, v);
    }
  }

  /** A move changes the number of tickets by one minus the copies of the ticket in the
      source, so with ticket ids unique in the source column it keeps the total. */
  lemma MovedTotal(keys: seq<string>, columns: map<string, seq<Ticket>>, source: string, dest: string, id: string)
    requires KeysIn(keys, columns) && Distinct(keys) && source in keys && dest in keys && source != dest
    requires Find(columns[source], TicketId, id).Some?
    ensures Total(keys, Moved(columns, source, dest, id)) == Total(keys, columns) - Occurrences(columns[source], id) + 1
    ensures Occurrences(columns[source], id) == 1 ==> Total(keys, Moved(columns, source, dest, id)) == Total(keys, columns)
  {
    var ticket := Find(columns[source], TicketId, id).value;
    var first := columns[source := Without(columns[source], id)];
    TotalUpdate(keys, columns, source, Without(columns[source], id));
    WithoutLength(columns[source], id);
    TotalUpdate(keys, first, dest, columns[dest] + [ticket]);
  }

  /** What a drop did. */
  datatype DropResult =
    | NoTarget   // dropped outside any column: nothing happens
    | Cleared    // no source column, no destination, or the same column: the drag ends
    | MovedTicket
    | Threw      // the destination is not a column: spreading its missing list throws

  const InitialKeys: seq<string> := ["new", "in_progress", "repaired", "scrap"]

  function InitialColumns(): map<string, seq<Ticket>> {
    map[
      "new" := [
        Ticket("T-101", "Oil Leakage in CMC", "CNC Machine 01", "high", "Today"),
        Ticket("T-102", "Conveyor Belt Jam", "Assembly Line A", "medium", "Tomorrow")],
      "in_progress" := [Ticket("T-098", "Calibration Error", "Robotic Arm #2", "low", "2 days ago")],
      "repaired" := [Ticket("T-090", "Screen flicker", "Control Panel", "low", "Last Week")],
      "scrap" := []]
  }

  class Board {
    /** `Object.keys(columns)`: the order the columns were created in. */
    const keys: seq<string>
    var columns: map<string, seq<Ticket>>
    var activeTicket: Option<Ticket>

    ghost predicate Valid()
      reads this
    {
      Distinct(keys) && KeysIn(keys, columns) && forall k :: k in columns ==> k in keys
    }

    constructor ()
      ensures Valid()
      ensures keys == InitialKeys && columns == InitialColumns() && activeTicket == None
      ensures Total(keys, columns) == 4
    {
      keys := InitialKeys;
      columns := InitialColumns();
      activeTicket := None;
    }

    /** `handleDragStart`: every column is searched in turn and a later find overwrites an
        earlier one, so the ticket comes from the last column holding the id. */
    method DragStart(id: string)
      requires Valid()
      modifies this`activeTicket
      ensures activeTicket == LastFound(keys, columns, id)
    {
      var found: Option<Ticket> := None;
      var i := 0;
      while i < |keys|
        invariant 0 <= i <= |keys|
        invariant found == LastFound(keys[..i], columns, id)
      {
        assert keys[..i + 1][..i] == keys[..i];
        var t := Find(columns[keys[i]], TicketId, id);
        if t.Some? {
          found := t;
        }
        i := i + 1;
      }
      assert keys[..|keys|] == keys;
      activeTicket := found;
    }

    /** `handleDragEnd`: `over` is the id of the column dropped on, if any. */
    method DragEnd(id: string, over: Option<string>) returns (result: DropResult)
      requires Valid()
      modifies this`columns, this`activeTicket
      ensures Valid()
      ensures over.None? <==> result == NoTarget
      ensures result == NoTarget || result == Threw ==>
        columns == old(columns) && activeTicket == old(activeTicket)
      ensures over.Some? && (SourceColumn(keys, old(columns), id).None? || over.value == ""
                             || SourceColumn(keys, old(columns), id) == Some(over.value)) ==>
        result == Cleared && columns == old(columns) && activeTicket == None
      ensures result == MovedTicket ==>
        && over.Some? && SourceColumn(keys, old(columns), id).Some?
        && var source := SourceColumn(keys, old(columns), id).value;
        && source != over.value && over.value in old(columns)
        && columns == Moved(old(columns), source, over.value, id)
        && activeTicket == None
      ensures (&& over.Some? && over.value != "" && over.value !in old(columns)
               && SourceColumn(keys, old(columns), id).Some? && SourceColumn(keys, old(columns), id) != Some(over.value))
        ==> result == Threw
      ensures (&& over.Some? && over.value != "" && over.value in old(columns)
               && SourceColumn(keys, old(columns), id).Some? && SourceColumn(keys, old(columns), id) != Some(over.value))
        ==> result == MovedTicket
    {
      if over.None? {
        return NoTarget;
      }
      var dest := over.value;
      var source := SourceColumn(keys, columns, id);
      if source.None? || dest == "" || source.value == dest {
        activeTicket := None;
        return Cleared;
      }
      if dest !in columns {
        return Threw;
      }
      columns := Moved(columns, source.value, dest, id);
      activeTicket := None;
      return MovedTicket;
    }
  }

  /** On the sample board, dropping T-101 on the Scrap column moves it there from New. */
  method MoveSampleTicket() returns (board: Board, result: DropResult)
    ensures result == MovedTicket
    ensures board.columns == Moved(InitialColumns(), "new", "scrap", "T-101")
    ensures board.activeTicket == None
  {
    board := new Board();
    var columns := InitialColumns();
    assert Find(columns["new"], TicketId, "T-101") == Some(columns["new"][0]);
    assert SourceColumn(InitialKeys, columns, "T-101") == Some("new");
    result := board.DragEnd("T-101", Some("scrap"));
  }
}
