/** The calendar grid of a year: one row per week, one column per weekday. */
module Calendar {

  /** A year as the date library sees it: the weekday of 1 January (0 is Sunday), whether it is a
      leap year, and the time at which it begins, in milliseconds. */
  datatype Year = Year(originDay: int, isLeapYear: bool, originUnixMilli: int) {
    predicate Valid() {
      0 <= originDay <= 6
    }

    function Days(): int {
      if isLeapYear then 366 else 365
    }

    /** The row count of the grid. */
    function WeekCount(): int {
      if isLeapYear && originDay == 6 then 54 else 53
    }
  }

  /** The index of a date's cell; the date is the n-th day of its year, counted from 1. */
  datatype Index = Index(week: int, day: int)

  predicate IsDate(y: Year, n: int) {
    y.Valid() && 1 <= n <= y.Days()
  }

  function Weekday(y: Year, n: int): int {
    (y.originDay + n - 1) % 7
  }

  /** The dividend of the week formula. */
  function Dividend(y: Year, n: int): int {
    n - (7 - y.originDay) - Weekday(y, n) - 1
  }

  function WeekAndDayOfYear(y: Year, n: int): Index
    requires IsDate(y, n)
  {
    Index(Dividend(y, n) / 7 + 1, Weekday(y, n))
  }

  /** The position of a cell when the grid is read row by row. */
  function Flat(i: Index): int {
    7 * i.week + i.day
  }

  predicate InGrid(y: Year, i: Index) {
    0 <= i.week < y.WeekCount() && 0 <= i.day < 7
  }

  /** The division of the formula is exact, and the cells of the year's days follow one another in
      the grid without a gap, starting at the weekday of 1 January. */
  lemma IndexIsSequential(y: Year, n: int)
    requires IsDate(y, n)
    ensures Dividend(y, n) % 7 == 0
    ensures InGrid(y, WeekAndDayOfYear(y, n))
    ensures Flat(WeekAndDayOfYear(y, n)) == y.originDay + n - 1
  {
    var q := (y.originDay + n - 1) / 7;
    assert Dividend(y, n) == 7 * (q - 1);
  }

  /** The row count is the number of weeks the year touches, rounded up. */
  lemma WeekCountIsCeiling(y: Year)
    requires y.Valid()
    ensures y.WeekCount() == (y.originDay + y.Days() + 6) / 7
    ensures 7 * (y.WeekCount() - 1) < y.originDay + y.Days() <= 7 * y.WeekCount()
  {
  }

  /** Different days have different cells. */
  lemma IndexIsInjective(y: Year, n: int, m: int)
    requires IsDate(y, n) && IsDate(y, m) && WeekAndDayOfYear(y, n) == WeekAndDayOfYear(y, m)
    ensures n == m
  {
    IndexIsSequential(y, n);
    IndexIsSequential(y, m);
  }

  /** A cell belongs to a day exactly when its place in reading order does. */
  lemma CellOfDay(y: Year, i: Index)
    requires y.Valid() && InGrid(y, i)
    ensures var n := Flat(i) - y.originDay + 1;
            if IsDate(y, n) then WeekAndDayOfYear(y, n) == i
            else forall m :: IsDate(y, m) ==> WeekAndDayOfYear(y, m) != i
  {
    var n := Flat(i) - y.originDay + 1;
    if IsDate(y, n) {
      IndexIsSequential(y, n);
    } else {
      forall m | IsDate(y, m) ensures WeekAndDayOfYear(y, m) != i {
        IndexIsSequential(y, m);
      }
    }
  }

  // ------------------------------------------------------------- filling with times

  /** What the cell at that place in reading order shows: the beginning of its day, or 0. */
  function CellTime(y: Year, flat: int): int {
    if y.originDay <= flat < y.originDay + y.Days() then y.originUnixMilli + (flat - y.originDay) * 86400000 else 0
  }

  /** All cells before that place are filled, all from there on untouched. */
  ghost predicate FilledUpTo(weeks: array2<int>, y: Year, flat: int)
    requires weeks.Length1 == 7
    reads weeks
  {
    forall w, d :: 0 <= w < weeks.Length0 && 0 <= d < 7 ==>
      weeks[w, d] == if 7 * w + d < flat then CellTime(y, 7 * w + d) else 0
  }

  method FillUnixMilli(y: Year, weeks: array2<int>)
    requires y.Valid() && weeks.Length0 == y.WeekCount() && weeks.Length1 == 7
    requires forall w, d :: 0 <= w < weeks.Length0 && 0 <= d < 7 ==> weeks[w, d] == 0
    modifies weeks
    ensures forall w, d :: 0 <= w < weeks.Length0 && 0 <= d < 7 ==> weeks[w, d] == CellTime(y, 7 * w + d)
  {
    var lastDay := if y.isLeapYear then (y.originDay + 1) % 7 else y.originDay;
    var unixMilli := y.originUnixMilli;
    for week := 0 to y.WeekCount()
      invariant FilledUpTo(weeks, y, 7 * week)
      invariant unixMilli == y.originUnixMilli +
                  (if week == 0 then 0
                   else if week < y.WeekCount() then 7 * week - y.originDay else y.Days()) * 86400000
    {
      var beginDay, endDay := 0, 6;
      if week == 0 {
        beginDay := y.originDay;
      } else if week == y.WeekCount() - 1 {
        endDay := lastDay;
      }
      assert 7 * week + beginDay == (if week == 0 then y.originDay else 7 * week);
      assert week == y.WeekCount() - 1 ==> 7 * week + endDay == y.originDay + y.Days() - 1;
      for day := beginDay to endDay + 1
        invariant FilledUpTo(weeks, y, if day == beginDay then 7 * week else 7 * week + day)
        invariant unixMilli == y.originUnixMilli + (7 * week + day - y.originDay) * 86400000
      {
        weeks[week, day] := unixMilli;
        unixMilli := unixMilli + 86400000;
      }
    }
  }

  /** Making a calendar: a grid of zeros, then the filler. */
  method CalendarOfTimes(y: Year) returns (weeks: array2<int>)
    requires y.Valid()
    ensures fresh(weeks) && weeks.Length0 == y.WeekCount() && weeks.Length1 == 7
    ensures forall n :: IsDate(y, n) ==>
              var i := WeekAndDayOfYear(y, n);
              InGrid(y, i) && weeks[i.week, i.day] == y.originUnixMilli + (n - 1) * 86400000
    ensures forall w, d :: 0 <= w < weeks.Length0 && 0 <= d < 7 ==>
              weeks[w, d] == 0 || exists n :: IsDate(y, n) && WeekAndDayOfYear(y, n) == Index(w, d)
  {
    weeks := new int[y.WeekCount(), 7]((_, _) => 0);
    FillUnixMilli(y, weeks);
    forall n | IsDate(y, n)
      ensures var i := WeekAndDayOfYear(y, n);
              InGrid(y, i) && weeks[i.week, i.day] == y.originUnixMilli + (n - 1) * 86400000
    {
      IndexIsSequential(y, n);
    }
    forall w, d | 0 <= w < weeks.Length0 && 0 <= d < 7
      ensures weeks[w, d] == 0 || exists n :: IsDate(y, n) && WeekAndDayOfYear(y, n) == Index(w, d)
    {
      CellOfDay(y, Index(w, d));
    }
  }
}
