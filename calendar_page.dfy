/** The preventive-maintenance calendar page (frontend/app/dashboard/calendar/page.tsx): the
    fixed 35-cell month grid and the cell marked as today. */
module CalendarPage {
  import opened Wrappers

  /** Cell `i` shows day `i - 2` when that is between 1 and 30 and is blank otherwise; the
      grid does not depend on the month shown. */
  function CalendarDays(): (cells: seq<Option<int>>)
    ensures |cells| == 35
    ensures forall i :: 0 <= i < |cells| ==> (cells[i].Some? <==> 3 <= i <= 32)
    ensures forall i :: 0 <= i < |cells| && cells[i].Some? ==> 1 <= cells[i].value <= 30
  {
    seq(35, i => var day := i - 2; if day > 0 && day <= 30 then Some(day) else None)
  }

  /** Days 1 to 30 each appear once, in increasing order, and the blanks are the first three
      and the last two cells. */
  lemma GridLayout()
    ensures var cells := CalendarDays();
      && (forall d :: 1 <= d <= 30 ==> cells[d + 2] == Some(d))
      && (forall i, j :: 0 <= i < j < |cells| && cells[i].Some? && cells[j].Some? ==> cells[i].value < cells[j].value)
      && (forall i :: 0 <= i < |cells| && cells[i].None? ==> i in {0, 1, 2, 33, 34})
  {
    var cells := CalendarDays();
    forall i | 0 <= i < |cells| ensures cells[i] == if 3 <= i <= 32 then Some(i - 2) else None {
    }
  }

  /** The cell that gets the "today" highlight. */
  predicate Highlighted(cells: seq<Option<int>>, i: int, today: int)
    requires 0 <= i < |cells|
  {
    cells[i].Some? && cells[i].value == today
  }

  /** On days 1 to 30 exactly one cell is highlighted, the one at `today + 2`; on the 31st of a
      month no cell is. */
  lemma TodayHighlight(today: int)
    ensures var cells := CalendarDays();
      && (1 <= today <= 30 ==> forall i :: 0 <= i < |cells| ==> (Highlighted(cells, i, today) <==> i == today + 2))
      && (today == 31 ==> forall i :: 0 <= i < |cells| ==> !Highlighted(cells, i, today))
  {
  }
}
