/** The clock and the calendar as the timer sees them.

    DateTime.Now is an integer number of seconds since 0001-01-01 00:00 local
    time, and DateTime.Today is the day number `now / 86400` (day 0 is
    DateTime.MinValue, 0001-01-01, a Monday). Day numbers are plain integers;
    AddDays(k) is `+ k`. */
module Calendar {

  const SecondsPerDay: int := 86400

  /** DateTime.MinValue as a day number: the "no session yet" marker. */
  const MinValueDay: int := 0

  /** DateTime.Today for the instant `now`. */
  function DayOf(now: int): (d: int)
    ensures d * SecondsPerDay <= now < d * SecondsPerDay + SecondsPerDay
  {
    now / SecondsPerDay
  }

  /** DayOfWeek with Sunday = 0 .. Saturday = 6; day 0 is a Monday. */
  function DayOfWeek(d: int): (w: int)
    ensures 0 <= w < 7
    ensures (d + 1 - w) % 7 == 0
  {
    (d + 1) % 7
  }

  const Sunday: int := 0

  /** The day before a day that is not a Sunday is one step earlier in the week. */
  lemma DayOfWeekPred(d: int)
    requires DayOfWeek(d) != Sunday
    ensures DayOfWeek(d - 1) == DayOfWeek(d) - 1
  {
  }

  /** The latest Sunday on or before day `d`. */
  function SundayOnOrBefore(d: int): (s: int)
    ensures DayOfWeek(s) == Sunday
    ensures d - 6 <= s <= d
    ensures d - s == DayOfWeek(d)
  {
    d - DayOfWeek(d)
  }

  /** The day of the year (0 = 1 January) at which each month starts, in a
      common year and in a leap year; entry 12 is the length of the year. */
  const DaysToMonth365: seq<int> := [0, 31, 59, 90, 120, 151, 181, 212, 243, 273, 304, 334, 365]
  const DaysToMonth366: seq<int> := [0, 31, 60, 91, 121, 152, 182, 213, 244, 274, 305, 335, 366]

  /** The month of day `doy` of a year, searching the month starts from
      month `k` on: the last month that starts on or before the day. */
  function MonthFrom(starts: seq<int>, doy: int, k: nat): (m: int)
    requires |starts| == 13 && 1 <= k <= 12 && starts[k - 1] <= doy
    ensures k <= m <= 12
    ensures starts[m - 1] <= doy && (m < 12 ==> doy < starts[m])
    decreases 12 - k
  {
    if k == 12 || doy < starts[k] then k else MonthFrom(starts, doy, k + 1)
  }

  /** The day of the year (0 = 1 January, at most 365) of day `d` in the
      proleptic Gregorian calendar, and whether its year is a leap year, as
      DateTime splits a day number: whole 400-year, 100-year, 4-year and
      1-year blocks, where the last day of a 400-year block belongs to its
      fourth century and the last day of a 4-year block to its fourth year.
      A year is a leap year when it is the fourth of its block, except for
      the last year of a century that is not the fourth of its 400 years. */
  function YearDay(d: int): (r: (int, bool))
    ensures 0 <= r.0 <= 365
  {
    var n := d % 146097;  // day of the 400-year block
    var y100 := if n / 36524 == 4 then 3 else n / 36524;
    var n100 := n - y100 * 36524;  // day of the century
    var y4 := n100 / 1461;
    var n4 := n100 - y4 * 1461;  // day of the 4-year block
    var y1 := if n4 / 365 == 4 then 3 else n4 / 365;
    (n4 - y1 * 365, y1 == 3 && (y4 != 24 || y100 == 3))
  }

  /** The month (1 = January .. 12 = December) of day `d`: the month table
      of a common or a leap year looked up at the day of the year. The
      heatmap only compares months of neighbouring weeks for equality,
      which is what "MMM" names do. */
  function MonthOf(d: int): (m: int)
    ensures 1 <= m <= 12
  {
    var (doy, leap) := YearDay(d);
    MonthFrom(if leap then DaysToMonth366 else DaysToMonth365, doy, 1)
  }

  /** MonthOf in its two steps: the day of the year, then the table. */
  lemma MonthOfSteps(d: int, doy: int, leap: bool, m: int)
    requires YearDay(d) == (doy, leap)
    requires MonthFrom(if leap then DaysToMonth366 else DaysToMonth365, doy, 1) == m
    ensures MonthOf(d) == m
  {
  }

  /** Year 4 is a leap year: its day 59, day 1154, is 29 February. */
  lemma MonthOfLeapDay()
    ensures MonthOf(1154) == 2
  {
    assert 1154 % 146097 == 1154 && 1154 / 36524 == 0 && 1154 / 1461 == 0 && 1154 / 365 == 3;
    MonthOfSteps(1154, 59, true, 2);
  }

  /** Year 100 is a century year without 29 February: its day 59, day
      36218, is 1 March. */
  lemma MonthOfCenturyYear()
    ensures MonthOf(36218) == 3
  {
    assert 36218 % 146097 == 36218 && 36218 / 36524 == 0 && 36218 / 1461 == 24 && 1154 / 365 == 3;
    MonthOfSteps(36218, 59, false, 3);
  }

  /** Year 400, the last of its 400-year block, is a leap year again: its
      day 59, day 145790, is 29 February. */
  lemma MonthOfFourHundredthYear()
    ensures MonthOf(145790) == 2
  {
    assert 145790 % 146097 == 145790 && 145790 / 36524 == 3 && 36218 / 1461 == 24 && 1154 / 365 == 3;
    MonthOfSteps(145790, 59, true, 2);
  }
}
