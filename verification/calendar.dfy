/**
 * The month view of the calendar (`renderCells`): whole Sunday-to-Saturday
 * weeks covering the displayed month, each cell holding the tasks due that
 * day and showing at most four of them as dots plus an overflow marker.
 *
 * The month is given by the day number of its first day and its length; the
 * weekday of a day number is `(day + offset) % 7` with 0 for Sunday.
 */
module MonthGrid {
  import opened Dates
  import opened Types
  import opened Seqs

  const DaysPerWeek: int := 7
  const MaxDots: int := 4

  /** Day of the week, Sunday = 0 ... Saturday = 6. */
  function Weekday(d: Day, offset: int): (w: int)
    ensures 0 <= w < DaysPerWeek
  {
    (d + offset) % DaysPerWeek
  }

  /** `startOfWeek` (weeks start on Sunday): the Sunday on or before `d`. */
  function WeekStart(d: Day, offset: int): (r: Day)
    ensures Weekday(r, offset) == 0
    ensures r <= d < r + DaysPerWeek
  {
    d - Weekday(d, offset)
  }

  /** `endOfWeek`: the Saturday on or after `d`. */
  function WeekEnd(d: Day, offset: int): (r: Day)
    ensures Weekday(r, offset) == DaysPerWeek - 1
    ensures d <= r < d + DaysPerWeek
  {
    d + (DaysPerWeek - 1 - Weekday(d, offset))
  }

  /** The tasks due on one day, in list order and with their repetitions (also the day drawer's list). */
  function TasksOnDay(tasks: seq<CareTask>, d: Day): (r: seq<CareTask>)
    ensures forall t :: t in r <==> t in tasks && t.dueDay == d
    ensures forall t :: Count(r, t) == if t.dueDay == d then Count(tasks, t) else 0
    ensures IsSubsequence(r, tasks)
  {
    Filter(tasks, (t: CareTask) => t.dueDay == d)
  }

  /** The dots drawn for a day: the first four of its tasks. */
  function Dots(dayTasks: seq<CareTask>): (r: seq<CareTask>)
    ensures |r| <= MaxDots
    ensures r <= dayTasks
    ensures |dayTasks| <= MaxDots ==> r == dayTasks
    ensures |dayTasks| > MaxDots ==> |r| == MaxDots
  {
    if |dayTasks| <= MaxDots then dayTasks else dayTasks[..MaxDots]
  }

  datatype Cell = Cell(day: Day, inMonth: bool, tasks: seq<CareTask>, dots: seq<CareTask>, overflow: bool)

  /** One cell of the grid: its day, whether that day is in the month, its tasks and its dots. */
  function MakeCell(tasks: seq<CareTask>, d: Day, firstDay: Day, length: int): (c: Cell)
    ensures c.day == d
    ensures c.inMonth <==> firstDay <= d < firstDay + length
  {
    var dayTasks := TasksOnDay(tasks, d);
    Cell(d, firstDay <= d < firstDay + length, dayTasks, Dots(dayTasks), |dayTasks| > MaxDots)
  }

  /**
   * A cell holds every task due on its day, each as often as the list has it;
   * it draws the first four of them and adds one overflow marker exactly when
   * there are more than four.
   */
  lemma CellContents(tasks: seq<CareTask>, d: Day, firstDay: Day, length: int)
    ensures var c := MakeCell(tasks, d, firstDay, length);
            && (forall t :: t in c.tasks <==> t in tasks && t.dueDay == d)
            && (forall t :: multiset(c.tasks)[t] == if t.dueDay == d then multiset(tasks)[t] else 0)
            && c.dots <= c.tasks && |c.dots| <= MaxDots
            && (|c.tasks| > MaxDots ==> |c.dots| == MaxDots)
            && (c.overflow <==> |c.tasks| > MaxDots)
            && |c.dots| + (if c.overflow then 1 else 0) == if |c.tasks| <= MaxDots then |c.tasks| else MaxDots + 1
  {
    var c := MakeCell(tasks, d, firstDay, length);
    forall t ensures multiset(c.tasks)[t] == if t.dueDay == d then multiset(tasks)[t] else 0 {
      CountIsMultiplicity(c.tasks, t);
      CountIsMultiplicity(tasks, t);
    }
  }

  /** The first and last day shown for a month. */
  function GridStart(firstDay: Day, offset: int): Day
  {
    WeekStart(firstDay, offset)
  }

  function GridEnd(firstDay: Day, length: int, offset: int): Day
  {
    WeekEnd(firstDay + length - 1, offset)
  }

  /** One row of the grid: seven cells, cell c being the day `day + c`. */
  ghost predicate IsWeekRow(row: seq<Cell>, tasks: seq<CareTask>, day: Day, firstDay: Day, length: int)
  {
    && |row| == DaysPerWeek
    && forall c :: 0 <= c < DaysPerWeek ==> row[c] == MakeCell(tasks, day + c, firstDay, length)
  }

  /** Rows of seven cells, cell (r, c) being the day `start + 7r + c`. */
  ghost predicate RowsFrom(rows: seq<seq<Cell>>, tasks: seq<CareTask>, start: Day, firstDay: Day, length: int)
  {
    forall r :: 0 <= r < |rows| ==> IsWeekRow(rows[r], tasks, start + DaysPerWeek * r, firstDay, length)
  }

  /**
   * The shape `renderCells` produces: rows of seven cells, cell (r, c) being
   * the day `GridStart + 7r + c`, ending on the grid's last day.
   */
  ghost predicate IsMonthGrid(rows: seq<seq<Cell>>, tasks: seq<CareTask>, firstDay: Day, length: int, offset: int)
  {
    var start := GridStart(firstDay, offset);
    && DaysPerWeek * |rows| == GridEnd(firstDay, length, offset) - start + 1
    && RowsFrom(rows, tasks, start, firstDay, length)
  }

  /** `renderCells`: week rows from the grid's first Sunday until its last Saturday is placed. */
  method RenderCells(tasks: seq<CareTask>, firstDay: Day, length: int, offset: int)
      returns (rows: seq<seq<Cell>>)
    requires length >= 1
    ensures IsMonthGrid(rows, tasks, firstDay, length, offset)
    ensures |rows| >= 1
  {
    var start := GridStart(firstDay, offset);
    var end := GridEnd(firstDay, length, offset);
    WholeWeeks(firstDay, length, offset);
    ghost var weeks := (end - start + 1) / DaysPerWeek;
    assert end + 1 == start + DaysPerWeek * weeks;
    rows := [];
    var day := start;
    while day <= end
      invariant day == start + DaysPerWeek * |rows|
      invariant |rows| <= weeks
      invariant rows == Rows(tasks, start, |rows|, firstDay, length)
    {
      var week := RenderWeek(tasks, day, firstDay, length);
      rows := rows + [week];
      day := day + DaysPerWeek;
    }
  }

  /** The seven cells of the week starting on `day`. */
  function Week(tasks: seq<CareTask>, day: Day, firstDay: Day, length: int): (row: seq<Cell>)
    ensures IsWeekRow(row, tasks, day, firstDay, length)
  {
    seq(DaysPerWeek, c => MakeCell(tasks, day + c, firstDay, length))
  }

  /** The first `n` week rows of a grid starting on `start`. */
  function Rows(tasks: seq<CareTask>, start: Day, n: nat, firstDay: Day, length: int): (rows: seq<seq<Cell>>)
    ensures |rows| == n
    ensures RowsFrom(rows, tasks, start, firstDay, length)
  {
    if n == 0 then []
    else
      var prefix := Rows(tasks, start, n - 1, firstDay, length);
      var week := Week(tasks, start + DaysPerWeek * (n - 1), firstDay, length);
      AppendWeek(prefix, week, tasks, start, firstDay, length);
      prefix + [week]
  }

  /** One row of the grid: the seven cells from `day` on. */
  method RenderWeek(tasks: seq<CareTask>, day: Day, firstDay: Day, length: int) returns (week: seq<Cell>)
    ensures week == Week(tasks, day, firstDay, length)
  {
    week := [];
    var i := 0;
    while i < DaysPerWeek
      invariant 0 <= i <= DaysPerWeek
      invariant |week| == i
      invariant forall c :: 0 <= c < i ==> week[c] == MakeCell(tasks, day + c, firstDay, length)
    {
      week := week + [MakeCell(tasks, day + i, firstDay, length)];
      i := i + 1;
    }
    assert IsWeekRow(Week(tasks, day, firstDay, length), tasks, day, firstDay, length);
  }

  /** Appending the row for the next week keeps the rows well formed. */
  lemma AppendWeek(rows: seq<seq<Cell>>, week: seq<Cell>, tasks: seq<CareTask>, start: Day, firstDay: Day, length: int)
    requires RowsFrom(rows, tasks, start, firstDay, length)
    requires IsWeekRow(week, tasks, start + DaysPerWeek * |rows|, firstDay, length)
    ensures RowsFrom(rows + [week], tasks, start, firstDay, length)
  {
    var next := rows + [week];
    forall r | 0 <= r < |next|
      ensures IsWeekRow(next[r], tasks, start + DaysPerWeek * r, firstDay, length)
    {
      if r < |rows| {
        assert next[r] == rows[r];
        assert IsWeekRow(rows[r], tasks, start + DaysPerWeek * r, firstDay, length);
      } else {
        assert r == |rows| && next[r] == week;
      }
    }
  }

  /** The grid spans a whole number of weeks. */
  lemma WholeWeeks(firstDay: Day, length: int, offset: int)
    requires length >= 1
    ensures GridStart(firstDay, offset) <= GridEnd(firstDay, length, offset)
    ensures (GridEnd(firstDay, length, offset) - GridStart(firstDay, offset) + 1) % DaysPerWeek == 0
  {
  }

  /**
   * The grid starts on a Sunday no later than the month's first day and
   * ends on a Saturday no earlier than its last day, less than a week from
   * each; a month of 28 to 31 days takes four to six rows.
   */
  lemma GridBounds(rows: seq<seq<Cell>>, tasks: seq<CareTask>, firstDay: Day, length: int, offset: int)
    requires length >= 1 && IsMonthGrid(rows, tasks, firstDay, length, offset)
    ensures |rows| >= 1
    ensures Weekday(rows[0][0].day, offset) == 0
    ensures rows[0][0].day <= firstDay < rows[0][0].day + DaysPerWeek
    ensures Weekday(rows[|rows| - 1][DaysPerWeek - 1].day, offset) == DaysPerWeek - 1
    ensures var last := firstDay + length - 1;
            last <= rows[|rows| - 1][DaysPerWeek - 1].day < last + DaysPerWeek
    ensures 28 <= length <= 31 ==> 4 <= |rows| <= 6
  {
    var start := GridStart(firstDay, offset);
    var end := GridEnd(firstDay, length, offset);
    WeekCount(firstDay, length, offset, |rows|);
    FirstAndLastCell(rows, tasks, start, end, firstDay, length);
  }

  /** The first cell of the rows is day `start`, and the last is day `end`. */
  lemma FirstAndLastCell(rows: seq<seq<Cell>>, tasks: seq<CareTask>, start: Day, end: Day, firstDay: Day, length: int)
    requires |rows| >= 1
    requires DaysPerWeek * |rows| == end - start + 1
    requires RowsFrom(rows, tasks, start, firstDay, length)
    ensures |rows[0]| == DaysPerWeek && rows[0][0].day == start
    ensures |rows[|rows| - 1]| == DaysPerWeek && rows[|rows| - 1][DaysPerWeek - 1].day == end
  {
    assert IsWeekRow(rows[0], tasks, start, firstDay, length);
    var last := |rows| - 1;
    assert IsWeekRow(rows[last], tasks, start + DaysPerWeek * last, firstDay, length);
  }

  /** The number of week rows needed for a month of a given length. */
  lemma WeekCount(firstDay: Day, length: int, offset: int, weeks: int)
    requires length >= 1
    requires DaysPerWeek * weeks == GridEnd(firstDay, length, offset) - GridStart(firstDay, offset) + 1
    ensures weeks >= 1
    ensures 28 <= length <= 31 ==> 4 <= weeks <= 6
  {
  }

  /** Successive cells, row by row, are successive days. */
  lemma GridDaysConsecutive(rows: seq<seq<Cell>>, tasks: seq<CareTask>, firstDay: Day, length: int, offset: int)
    requires IsMonthGrid(rows, tasks, firstDay, length, offset)
    ensures forall r, c :: 0 <= r < |rows| && 0 <= c < DaysPerWeek - 1 ==> rows[r][c + 1].day == rows[r][c].day + 1
    ensures forall r :: 0 < r < |rows| ==> rows[r][0].day == rows[r - 1][DaysPerWeek - 1].day + 1
  {
  }

  /** Every day of the month has exactly one cell, and that cell is marked as in the month. */
  lemma MonthDaysAppearOnce(rows: seq<seq<Cell>>, tasks: seq<CareTask>, firstDay: Day, length: int, offset: int,
                            d: Day)
    requires length >= 1 && IsMonthGrid(rows, tasks, firstDay, length, offset)
    requires firstDay <= d < firstDay + length
    ensures exists r, c :: 0 <= r < |rows| && 0 <= c < DaysPerWeek && rows[r][c].day == d && rows[r][c].inMonth
    ensures forall r1, c1, r2, c2 ::
              (0 <= r1 < |rows| && 0 <= c1 < DaysPerWeek && 0 <= r2 < |rows| && 0 <= c2 < DaysPerWeek
               && rows[r1][c1].day == d && rows[r2][c2].day == d) ==> r1 == r2 && c1 == c2
  {
    var start := GridStart(firstDay, offset);
    var k := d - start;
    var r, c := k / DaysPerWeek, k % DaysPerWeek;
    assert k == DaysPerWeek * r + c;
    assert rows[r][c].day == d;
  }
}

/**
 * The month shown by the calendar and its previous/next buttons
 * (`subMonths(currentMonth, 1)` and `addMonths(currentMonth, 1)`).  Adding
 * months keeps the day of the month, clamped to the length of the target
 * month in the Gregorian calendar.
 */
module MonthNav {

  datatype CalendarDate = CalendarDate(year: int, month: int, day: int)

  predicate IsLeapYear(y: int)
  {
    (y % 4 == 0 && y % 100 != 0) || y % 400 == 0
  }

  function DaysInMonth(y: int, m: int): (n: int)
    requires 1 <= m <= 12
    ensures 28 <= n <= 31
    ensures n == 28 <==> m == 2 && !IsLeapYear(y)
  {
    if m == 2 then (if IsLeapYear(y) then 29 else 28)
    else if m == 4 || m == 6 || m == 9 || m == 11 then 30
    else 31
  }

  predicate Valid(d: CalendarDate)
  {
    1 <= d.month <= 12 && 1 <= d.day <= DaysInMonth(d.year, d.month)
  }

  /** Months counted from January of year 0. */
  function MonthIndex(d: CalendarDate): int
  {
    d.year * 12 + (d.month - 1)
  }

  /** `addMonths`: `n` months later (earlier when negative), day clamped to the month's length. */
  function AddMonths(d: CalendarDate, n: int): (r: CalendarDate)
    requires Valid(d)
    ensures Valid(r)
    ensures MonthIndex(r) == MonthIndex(d) + n
    ensures r.day <= d.day
    ensures d.day <= DaysInMonth(r.year, r.month) ==> r.day == d.day
    ensures d.day > DaysInMonth(r.year, r.month) ==> r.day == DaysInMonth(r.year, r.month)
  {
    var total := MonthIndex(d) + n;
    var y := total / 12;
    var m := total % 12 + 1;
    var len := DaysInMonth(y, m);
    CalendarDate(y, m, if d.day <= len then d.day else len)
  }

  /** The next-month button. */
  function NextMonth(d: CalendarDate): (r: CalendarDate)
    requires Valid(d)
    ensures Valid(r) && MonthIndex(r) == MonthIndex(d) + 1
  {
    AddMonths(d, 1)
  }

  /** The previous-month button. */
  function PrevMonth(d: CalendarDate): (r: CalendarDate)
    requires Valid(d)
    ensures Valid(r) && MonthIndex(r) == MonthIndex(d) - 1
  {
    AddMonths(d, -1)
  }

  /** A month index names one (year, month) pair. */
  lemma MonthIndexInjective(a: CalendarDate, b: CalendarDate)
    requires 1 <= a.month <= 12 && 1 <= b.month <= 12
    requires MonthIndex(a) == MonthIndex(b)
    ensures a.year == b.year && a.month == b.month
  {
  }

  /**
   * Going back one month and forward again returns to the same month; the day
   * comes back unchanged when it fits in every month (the 28th or earlier).
   */
  lemma PrevThenNext(d: CalendarDate)
    requires Valid(d)
    ensures var e := NextMonth(PrevMonth(d));
            && e.year == d.year && e.month == d.month && e.day <= d.day
            && (d.day <= 28 ==> e == d)
  {
    var e := NextMonth(PrevMonth(d));
    MonthIndexInjective(e, d);
  }
}
