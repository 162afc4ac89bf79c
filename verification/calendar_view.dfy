/**
 * The agenda's month calendar: the grid of day cells for a month, and the
 * marks for today and for the selected date. The month's starting weekday,
 * its number of days and the dates compared are parameters.
 */
module CalendarView {
  import opened Wrappers

  /** The grid `getDaysInMonth` builds: `start` empty cells, then the days 1 to `days`. */
  function Grid(start: nat, days: nat): (g: seq<Option<nat>>)
    ensures |g| == start + days
    ensures forall i :: 0 <= i < start ==> g[i].None?
    ensures forall d :: 1 <= d <= days ==> g[start + d - 1] == Some(d)
    ensures forall i :: 0 <= i < |g| && g[i].Some? ==> start <= i && g[i].value == i - start + 1
  {
    seq(start + days, i requires 0 <= i < start + days => if i < start then None else Some(i - start + 1))
  }

  /** `getDaysInMonth`, filling the grid in its two loops. */
  method GetDaysInMonth(startingDayOfWeek: nat, daysInMonth: nat) returns (days: seq<Option<nat>>)
    ensures days == Grid(startingDayOfWeek, daysInMonth)
  {
    days := [];
    for i := 0 to startingDayOfWeek
      invariant |days| == i && forall k :: 0 <= k < i ==> days[k].None?
    {
      days := days + [None];
    }
    for i := 1 to daysInMonth + 1
      invariant |days| == startingDayOfWeek + i - 1
      invariant forall k :: 0 <= k < startingDayOfWeek ==> days[k].None?
      invariant forall k :: startingDayOfWeek <= k < |days| ==> days[k] == Some(k - startingDayOfWeek + 1)
    {
      days := days + [Some(i)];
    }
  }

  /** A calendar date; `month` counts from 0 as JavaScript's `getMonth` does. */
  datatype CalDate = CalDate(day: int, month: int, year: int)

  /** A cell shows `date` when it holds that date's day and the displayed month and year are the date's. */
  predicate Marks(cell: Option<nat>, shown: CalDate, date: CalDate) {
    cell.Some? && cell.value != 0 && cell.value == date.day && shown.month == date.month && shown.year == date.year
  }

  /** `isToday`. */
  predicate IsToday(cell: Option<nat>, shown: CalDate, today: CalDate) {
    Marks(cell, shown, today)
  }

  /** `isSelected`. */
  predicate IsSelected(cell: Option<nat>, shown: CalDate, selected: CalDate) {
    Marks(cell, shown, selected)
  }

  /**
   * In a month's grid a date is marked in at most one cell: the cell of its
   * day, and only when the grid shows the date's month and year and the day
   * lies in the month. Empty cells are never marked.
   */
  lemma MarkedCell(start: nat, days: nat, shown: CalDate, date: CalDate, i: nat)
    requires i < start + days
    ensures Marks(Grid(start, days)[i], shown, date) <==>
      shown.month == date.month && shown.year == date.year && 1 <= date.day <= days && i == start + date.day - 1
    ensures i < start ==> !Marks(Grid(start, days)[i], shown, date)
  {
  }

  /** When the grid shows the selected date's month and the day lies in the month, exactly one cell is selected. */
  lemma SelectedOnce(start: nat, days: nat, shown: CalDate, selected: CalDate)
    requires shown.month == selected.month && shown.year == selected.year && 1 <= selected.day <= days
    ensures var g := Grid(start, days);
            IsSelected(g[start + selected.day - 1], shown, selected)
            && forall i :: 0 <= i < |g| && IsSelected(g[i], shown, selected) ==> i == start + selected.day - 1
  {
  }
}
