/** Instants as integer milliseconds since 1970-01-01T00:00:00, and the calendar
    arithmetic of JavaScript's `new Date(year, monthIndex, day, hours, minutes, seconds)`
    (ECMAScript's DayFromYear and MakeDay), which the events route uses to build its
    month window. The server's local time zone is taken to be UTC. */
module Dates {

  const MsPerSecond: int := 1000
  const MsPerMinute: int := 60000
  const MsPerHour: int := 3600000
  const MsPerDay: int := 86400000

  /** The last instant the events route still counts as part of a day: 23:59:59.000. */
  const LastSecondOfDay: int := 23 * MsPerHour + 59 * MsPerMinute + 59 * MsPerSecond

  predicate InLeapYear(y: int) {
    y % 4 == 0 && (y % 100 != 0 || y % 400 == 0)
  }

  function DaysInYear(y: int): int {
    if InLeapYear(y) then 366 else 365
  }

  /** Day number of January 1st of year `y`; Dafny's `/` floors for a positive divisor. */
  function DayFromYear(y: int): int {
    365 * (y - 1970) + (y - 1969) / 4 - (y - 1901) / 100 + (y - 1601) / 400
  }

  /** Number of days of month `m` (0 = January) of year `y`. */
  function DaysInMonth(y: int, m: int): (n: int)
    requires 0 <= m < 12
    ensures 28 <= n <= 31
    ensures n == 29 <==> m == 1 && InLeapYear(y)
  {
    if m == 1 then (if InLeapYear(y) then 29 else 28)
    else if m == 3 || m == 5 || m == 8 || m == 10 then 30
    else 31
  }

  /** Days of year `y` before month `m` (0 = January, 12 = the whole year). */
  function MonthStart(y: int, m: int): int
    requires 0 <= m <= 12
  {
    if m == 0 then 0 else MonthStart(y, m - 1) + DaysInMonth(y, m - 1)
  }

  /** ECMAScript MakeDay: the month index may lie outside 0..11 and the day outside the
      month; both roll over into neighbouring months and years. */
  function MakeDay(year: int, month: int, date: int): int {
    var ym := year + month / 12;
    var mn := month % 12;
    DayFromYear(ym) + MonthStart(ym, mn) + date - 1
  }

  /** The year the Date constructor uses: two-digit years mean 1900 + year. */
  function FullYear(year: int): int {
    if 0 <= year <= 99 then 1900 + year else year
  }

  /** `new Date(year, monthIndex, day, hours, minutes, seconds)`. */
  function NewDate(year: int, monthIndex: int, day: int, hours: int, minutes: int, seconds: int): int {
    MakeDay(FullYear(year), monthIndex, day) * MsPerDay
      + hours * MsPerHour + minutes * MsPerMinute + seconds * MsPerSecond
  }

  /** Midnight opening day `d` of month `m` (0 = January) of year `y`, read on the calendar
      without any roll-over. */
  function DayStart(y: int, m: int, d: int): int
    requires 0 <= m < 12
  {
    (DayFromYear(y) + MonthStart(y, m) + d - 1) * MsPerDay
  }

  /** The closed interval [start, end] of instants a query keeps. */
  datatype Window = Window(start: int, end: int) {
    predicate Contains(t: int) { start <= t <= end }
  }

  /** The window for month `month` (1 = January) of `year`: from
      `new Date(year, month - 1, 1)` to `new Date(year, month, 0, 23, 59, 59)`. */
  function MonthWindow(year: int, month: int): Window {
    Window(NewDate(year, month - 1, 1, 0, 0, 0), NewDate(year, month, 0, 23, 59, 59))
  }

  /** Stepping the numerator by one raises the floor quotient exactly at multiples of `d`. */
  lemma FloorStep(a: int, d: int)
    requires d == 4 || d == 100 || d == 400
    ensures (a + 1) / d - a / d == if (a + 1) % d == 0 then 1 else 0
  {
    var q, r := a / d, a % d;
    assert a == d * q + r && 0 <= r < d;
    if r == d - 1 {
      assert a + 1 == d * (q + 1);
    } else {
      assert a + 1 == d * q + (r + 1);
    }
  }

  /** Each of the three leap-year terms of `DayFromYear` steps by one exactly at the
      years the Gregorian rule names. */
  lemma LeapTerms(y: int)
    ensures (y - 1968) / 4 - (y - 1969) / 4 == if y % 4 == 0 then 1 else 0
    ensures (y - 1900) / 100 - (y - 1901) / 100 == if y % 100 == 0 then 1 else 0
    ensures (y - 1600) / 400 - (y - 1601) / 400 == if y % 400 == 0 then 1 else 0
  {
    FloorStep(y - 1969, 4);
    assert y - 1968 == 4 * (y / 4 - 492) + y % 4;
    FloorStep(y - 1901, 100);
    assert y - 1900 == 100 * (y / 100 - 19) + y % 100;
    FloorStep(y - 1601, 400);
    assert y - 1600 == 400 * (y / 400 - 4) + y % 400;
  }

  /** A multiple of 400 is a multiple of 100, and a multiple of 100 one of 4. */
  lemma DivisibilityChain(y: int)
    ensures y % 400 == 0 ==> y % 100 == 0
    ensures y % 100 == 0 ==> y % 4 == 0
  {
    if y % 400 == 0 {
      var q := y / 400;
      assert y == 400 * q;
      assert y == 100 * (4 * q) + 0;
    }
    if y % 100 == 0 {
      var q := y / 100;
      assert y == 100 * q;
      assert y == 4 * (25 * q) + 0;
    }
  }

  /** Consecutive years' first days lie a year's length apart. */
  lemma YearLength(y: int)
    ensures DayFromYear(y + 1) - DayFromYear(y) == DaysInYear(y)
  {
    LeapTerms(y);
    DivisibilityChain(y);
  }

  lemma MonthsFillYear(y: int)
    ensures MonthStart(y, 11) + DaysInMonth(y, 11) == DaysInYear(y)
  {
    var leap := if InLeapYear(y) then 1 else 0;
    assert MonthStart(y, 1) == 31;
    assert MonthStart(y, 2) == 59 + leap;
    assert MonthStart(y, 3) == 90 + leap;
    assert MonthStart(y, 4) == 120 + leap;
    assert MonthStart(y, 5) == 151 + leap;
    assert MonthStart(y, 6) == 181 + leap;
    assert MonthStart(y, 7) == 212 + leap;
    assert MonthStart(y, 8) == 243 + leap;
    assert MonthStart(y, 9) == 273 + leap;
    assert MonthStart(y, 10) == 304 + leap;
    assert MonthStart(y, 11) == 334 + leap;
  }

  /** For a month 1..12 the window opens at midnight on the 1st of that month and closes
      at 23:59:59 on its last day, the 28th to 31st depending on month and leap year. */
  lemma {:induction false} MonthWindowSpansMonth(year: int, month: int)
    requires 1 <= month <= 12
    ensures var y := FullYear(year);
      && MonthWindow(year, month).start == DayStart(y, month - 1, 1)
      && MonthWindow(year, month).end == DayStart(y, month - 1, DaysInMonth(y, month - 1)) + LastSecondOfDay
  {
    var y := FullYear(year);
    assert (month - 1) / 12 == 0 && (month - 1) % 12 == month - 1;
    assert MakeDay(y, month - 1, 1) == DayFromYear(y) + MonthStart(y, month - 1);
    if month == 12 {
      assert 12 / 12 == 1 && 12 % 12 == 0;
      assert MakeDay(y, 12, 0) == DayFromYear(y + 1) - 1;
      YearLength(y);
      MonthsFillYear(y);
    } else {
      assert month / 12 == 0 && month % 12 == month;
      assert MakeDay(y, month, 0) == DayFromYear(y) + MonthStart(y, month) - 1;
    }
  }

  /** An instant on one of the month's days lies in the window unless it falls on the final
      day after 23:59:59.000: the window misses the last 999 ms of the month. */
  lemma {:induction false} MonthWindowMembership(year: int, month: int, d: int, ms: int)
    requires 1 <= month <= 12
    requires 1 <= d <= DaysInMonth(FullYear(year), month - 1)
    requires 0 <= ms < MsPerDay
    ensures var t := DayStart(FullYear(year), month - 1, d) + ms;
      MonthWindow(year, month).Contains(t) <==> d < DaysInMonth(FullYear(year), month - 1) || ms <= LastSecondOfDay
  {
    MonthWindowSpansMonth(year, month);
  }

  /** A month number past 12 rolls into the next year, as the Date constructor does. */
  lemma {:induction false} MonthWindowRollsOver(year: int, month: int)
    requires year >= 100
    ensures MonthWindow(year, month + 12) == MonthWindow(year + 1, month)
  {
    assert (month + 11) / 12 == (month - 1) / 12 + 1 && (month + 11) % 12 == (month - 1) % 12;
    assert (month + 12) / 12 == month / 12 + 1 && (month + 12) % 12 == month % 12;
  }
}
