/** The contribution heatmap of the timer screen: 53 Sunday-aligned weeks of
    day cells coloured by the number of completed pomodoros, and a row of
    month labels whose widths cover the weeks. */
module Heatmap {
  import opened Text
  import opened Calendar

  /** The five fill colours of a cell. */
  datatype HeatColor = Gray | Lightest | Light | Medium | Bright {
    function Hex(): string {
      match this
      case Gray => "#374151"
      case Lightest => "#0E4429"
      case Light => "#006D32"
      case Medium => "#26A641"
      case Bright => "#39D353"
    }
    /** Position in the scale from no activity (0) to most activity (4). */
    function Rank(): int {
      match this
      case Gray => 0
      case Lightest => 1
      case Light => 2
      case Medium => 3
      case Bright => 4
    }
  }

  /** The hover text of a cell: empty for the filler days after today,
      otherwise the date and its session count (formatted by the culture). */
  datatype Tooltip = NoTooltip | DayTooltip(date: int, sessions: int)

  datatype HeatmapDay = HeatmapDay(date: int, sessionCount: int, color: HeatColor, tooltip: Tooltip)
  datatype HeatmapWeek = HeatmapWeek(days: seq<HeatmapDay>)
  /** A month label; `monthName` is the month number that "MMM" would name. */
  datatype HeatmapMonth = HeatmapMonth(monthName: int, width: int)

  const WeeksShown: int := 53
  const DaysPerWeek: int := 7
  /** Pixels per week column: a 12 px square and 3 px of spacing. */
  const WeekWidth: int := 15

  /** GetHeatmapColor: 0 sessions grey, 1 lightest, 2-3 light, 4-5 medium,
      6 or more (and anything else) bright. */
  function GetHeatmapColor(sessionCount: int): (c: HeatColor)
    ensures c == Gray <==> sessionCount == 0
    ensures c == Lightest <==> sessionCount == 1
    ensures c == Light <==> sessionCount == 2 || sessionCount == 3
    ensures c == Medium <==> sessionCount == 4 || sessionCount == 5
    ensures sessionCount >= 6 ==> c == Bright
  {
    if sessionCount == 0 then Gray
    else if sessionCount == 1 then Lightest
    else if sessionCount == 2 || sessionCount == 3 then Light
    else if sessionCount == 4 || sessionCount == 5 then Medium
    else Bright
  }

  /** More sessions never give a paler colour. */
  lemma ColorMonotone(a: int, b: int)
    requires 0 <= a <= b
    ensures GetHeatmapColor(a).Rank() <= GetHeatmapColor(b).Rank()
  {
  }

  /** The session count the dictionary holds for `date`, 0 when absent. */
  function CountOn(counts: map<int, int>, date: int): int {
    if date in counts then counts[date] else 0
  }

  /** The cell the builder emits for `date`. */
  function CellFor(counts: map<int, int>, today: int, date: int): HeatmapDay {
    if date > today then HeatmapDay(date, 0, Gray, NoTooltip)
    else
      var n := CountOn(counts, date);
      HeatmapDay(date, n, GetHeatmapColor(n), DayTooltip(date, n))
  }

  /** The first day of the grid: 364 days before today, moved back to a Sunday. */
  function GridStart(today: int): (s: int)
    ensures DayOfWeek(s) == Sunday
    ensures today - 370 <= s <= today - 364
  {
    SundayOnOrBefore(today - 364)
  }

  /** The weeks GenerateHeatmap lays out for `today`: 53 weeks of 7
      consecutive days starting on the grid's first Sunday. */
  function HeatmapWeeksFor(counts: map<int, int>, today: int): (weeks: seq<HeatmapWeek>)
    ensures |weeks| == WeeksShown
    ensures forall w :: 0 <= w < |weeks| ==> weeks[w] == WeekFor(counts, today, GridStart(today) + 7 * w)
  {
    seq(WeeksShown, w => WeekFor(counts, today, GridStart(today) + 7 * w))
  }

  /** The grid's dates: 7 consecutive days per week from a Sunday at most
      370 days back, with today in the last week. */
  lemma HeatmapDates(counts: map<int, int>, today: int)
    ensures var weeks := HeatmapWeeksFor(counts, today);
      && (forall w :: 0 <= w < |weeks| ==> |weeks[w].days| == DaysPerWeek)
      && (forall w, k :: 0 <= w < |weeks| && 0 <= k < |weeks[w].days| ==>
            weeks[w].days[k].date == GridStart(today) + 7 * w + k)
      && DayOfWeek(weeks[0].days[0].date) == Sunday
      && today - 370 <= weeks[0].days[0].date <= today - 364
      && weeks[52].days[0].date <= today <= weeks[52].days[6].date
  {
  }

  /** Days after today are empty grey fillers; the others carry their count
      from the dictionary, its colour and a tooltip. */
  lemma HeatmapCells(counts: map<int, int>, today: int)
    ensures var weeks := HeatmapWeeksFor(counts, today);
      && (forall w, k :: 0 <= w < |weeks| && 0 <= k < |weeks[w].days| && weeks[w].days[k].date > today ==>
            weeks[w].days[k].sessionCount == 0 && weeks[w].days[k].color == Gray &&
            weeks[w].days[k].tooltip == NoTooltip)
      && (forall w, k :: 0 <= w < |weeks| && 0 <= k < |weeks[w].days| && weeks[w].days[k].date <= today ==>
            var day := weeks[w].days[k];
            day.sessionCount == CountOn(counts, day.date) && day.color == GetHeatmapColor(day.sessionCount) &&
            day.tooltip == DayTooltip(day.date, day.sessionCount))
  {
  }

  /** The seven cells of the week that starts on `sunday`. */
  function WeekFor(counts: map<int, int>, today: int, sunday: int): (week: HeatmapWeek)
    ensures |week.days| == DaysPerWeek
    ensures forall k :: 0 <= k < DaysPerWeek ==> week.days[k] == CellFor(counts, today, sunday + k)
  {
    HeatmapWeek(seq(DaysPerWeek, k => CellFor(counts, today, sunday + k)))
  }

  /** The month shown for each week: that of its first day on or before today. */
  function WeekMonths(weeks: seq<HeatmapWeek>): seq<int>
    requires forall w :: 0 <= w < |weeks| ==> |weeks[w].days| > 0
  {
    seq(|weeks|, w requires 0 <= w < |weeks| => MonthOf(weeks[w].days[0].date))
  }

  /** `weeks[..].Days.FirstOrDefault(d => d.Date <= today)`. */
  function FirstDayOnOrBefore(days: seq<HeatmapDay>, today: int): (r: Option<HeatmapDay>)
    ensures r.None? <==> forall k :: 0 <= k < |days| ==> days[k].date > today
    ensures r.Some? ==> exists k :: 0 <= k < |days| && days[k] == r.value && r.value.date <= today &&
                                 forall j :: 0 <= j < k ==> days[j].date > today
  {
    if days == [] then None
    else if days[0].date <= today then Some(days[0])
    else
      var r := FirstDayOnOrBefore(days[1..], today);
      assert r.Some? ==> exists k :: 0 <= k < |days| && days[k] == r.value && r.value.date <= today &&
                                    forall j :: 0 <= j < k ==> days[j].date > today by {
        if r.Some? {
          var k :| 0 <= k < |days[1..]| && days[1..][k] == r.value && r.value.date <= today &&
            forall j :: 0 <= j < k ==> days[1..][j].date > today;
          assert days[k + 1] == r.value;
          assert forall j :: 0 <= j < k + 1 ==> days[j].date > today by {
            forall j | 0 <= j < k + 1 ensures days[j].date > today {
              if j > 0 { assert days[j] == days[1..][j - 1]; }
            }
          }
        }
      }
      r
  }

  // ---- month labels as a run-length code of the week months ----

  /** `m` repeated `n` times. */
  function Repeat(m: int, n: nat): (r: seq<int>)
    ensures |r| == n && forall i :: 0 <= i < n ==> r[i] == m
  {
    if n == 0 then [] else [m] + Repeat(m, n - 1)
  }

  /** The week months the labels stand for: each label covers width / 15 weeks. */
  function Expand(labels: seq<HeatmapMonth>): seq<int> {
    if labels == [] then []
    else
      var n := if labels[0].width >= 0 then labels[0].width / WeekWidth else 0;
      Repeat(labels[0].monthName, n) + Expand(labels[1..])
  }

  /** What the label row guarantees: each label is at least one whole week
      wide, and neighbouring labels name different months. */
  predicate Canonical(labels: seq<HeatmapMonth>) {
    && (forall i :: 0 <= i < |labels| ==> labels[i].width >= WeekWidth && labels[i].width % WeekWidth == 0)
    && (forall i :: 0 <= i < |labels| - 1 ==> labels[i].monthName != labels[i + 1].monthName)
  }

  function TotalWidth(labels: seq<HeatmapMonth>): int {
    if labels == [] then 0 else labels[0].width + TotalWidth(labels[1..])
  }

  /** The run-length code of a sequence of week months. */
  function RunLengths(ms: seq<int>): (labels: seq<HeatmapMonth>)
    ensures |ms| > 0 ==> |labels| > 0 && labels[0].monthName == ms[0]
    ensures Canonical(labels)
  {
    if ms == [] then []
    else
      var rest := RunLengths(ms[1..]);
      if rest != [] && rest[0].monthName == ms[0] then
        CanonicalTail(rest);
        ConsCanonical(HeatmapMonth(ms[0], rest[0].width + WeekWidth), rest[1..]);
        [HeatmapMonth(ms[0], rest[0].width + WeekWidth)] + rest[1..]
      else
        ConsCanonical(HeatmapMonth(ms[0], WeekWidth), rest);
        [HeatmapMonth(ms[0], WeekWidth)] + rest
  }

  /** A whole-week label in front of a canonical row whose first month
      differs keeps the row canonical. */
  lemma ConsCanonical(h: HeatmapMonth, t: seq<HeatmapMonth>)
    requires Canonical(t) && h.width >= WeekWidth && h.width % WeekWidth == 0
    requires t == [] || h.monthName != t[0].monthName
    ensures Canonical([h] + t)
  {
    var r := [h] + t;
    forall i | 0 <= i < |r| - 1 ensures r[i].monthName != r[i + 1].monthName {
      if i > 0 {
        assert r[i] == t[i - 1] && r[i + 1] == t[i];
      }
    }
    forall i | 0 <= i < |r| ensures r[i].width >= WeekWidth && r[i].width % WeekWidth == 0 {
      if i > 0 {
        assert r[i] == t[i - 1];
      }
    }
  }

  /** The tail of a canonical row is canonical, and so is its first label
      alone; neighbours still differ. */
  lemma CanonicalTail(labels: seq<HeatmapMonth>)
    requires Canonical(labels) && labels != []
    ensures Canonical(labels[1..])
    ensures |labels| > 1 ==> labels[0].monthName != labels[1].monthName
  {
    var t := labels[1..];
    forall i | 0 <= i < |t| - 1 ensures t[i].monthName != t[i + 1].monthName {
      assert t[i] == labels[i + 1] && t[i + 1] == labels[i + 2];
    }
  }

  /** Decoding the run-length code gives back the week months. */
  lemma {:induction false} ExpandRunLengths(ms: seq<int>)
    ensures Expand(RunLengths(ms)) == ms
  {
    if ms != [] {
      ExpandRunLengths(ms[1..]);
      var rest := RunLengths(ms[1..]);
      if rest != [] && rest[0].monthName == ms[0] {
        var n := rest[0].width / WeekWidth;
        assert (rest[0].width + WeekWidth) / WeekWidth == n + 1;
        assert Expand(rest) == Repeat(ms[0], n) + Expand(rest[1..]);
        assert Repeat(ms[0], n + 1) == [ms[0]] + Repeat(ms[0], n);
      } else {
        assert Repeat(ms[0], 1) == [ms[0]];
      }
    }
  }

  /** A canonical label row is determined by the week months it stands for,
      so it is their run-length code. */
  lemma {:induction false} CanonicalIsRunLengths(labels: seq<HeatmapMonth>, ms: seq<int>)
    requires Canonical(labels) && Expand(labels) == ms
    ensures labels == RunLengths(ms)
    decreases |ms|
  {
    if labels != [] {
      var h := labels[0];
      var t := labels[1..];
      var n := h.width / WeekWidth;
      assert labels == [h] + t;
      CanonicalTail(labels);
      assert n >= 1;
      assert ms == Repeat(h.monthName, n) + Expand(t);
      assert ms[0] == h.monthName;
      if n == 1 {
        assert ms[1..] == Expand(t);
        CanonicalIsRunLengths(t, ms[1..]);
        assert h == HeatmapMonth(ms[0], WeekWidth);
      } else {
        var h' := HeatmapMonth(h.monthName, h.width - WeekWidth);
        PeelWeek(h, t, ms);
        CanonicalIsRunLengths([h'] + t, ms[1..]);
      }
    }
  }

  /** Taking the first week off a label more than a week wide leaves a
      canonical row for the remaining weeks. */
  lemma PeelWeek(h: HeatmapMonth, t: seq<HeatmapMonth>, ms: seq<int>)
    requires Canonical([h] + t) && Expand([h] + t) == ms && h.width / WeekWidth >= 2
    ensures var h' := HeatmapMonth(h.monthName, h.width - WeekWidth);
      |ms| > 0 && Canonical([h'] + t) && Expand([h'] + t) == ms[1..]
  {
    var labels := [h] + t;
    var n := h.width / WeekWidth;
    assert labels[0] == h && labels[1..] == t;
    CanonicalTail(labels);
    var h' := HeatmapMonth(h.monthName, h.width - WeekWidth);
    var labels' := [h'] + t;
    assert (h.width - WeekWidth) / WeekWidth == n - 1;
    assert Repeat(h.monthName, n) == [h.monthName] + Repeat(h.monthName, n - 1);
    assert labels'[1..] == t;
    assert ms == Repeat(h.monthName, n) + Expand(t);
    assert Expand(labels') == Repeat(h.monthName, n - 1) + Expand(t);
    ConsCanonical(h', t);
  }



  /** The label widths add up to 15 pixels per week. */
  lemma {:induction false} TotalWidthOfCanonical(labels: seq<HeatmapMonth>)
    requires Canonical(labels)
    ensures TotalWidth(labels) == WeekWidth * |Expand(labels)|
  {
    if labels != [] {
      assert Canonical(labels[1..]);
      TotalWidthOfCanonical(labels[1..]);
    }
  }

  /** The month-label scan of GenerateHeatmap: walks the weeks, closes the
      open label whenever the month of a week's first in-range day differs
      from the previous one, and flushes the last label after the loop. */
  method MonthLabels(weeks: seq<HeatmapWeek>, today: int) returns (months: seq<HeatmapMonth>)
    requires forall w :: 0 <= w < |weeks| ==> |weeks[w].days| > 0 && weeks[w].days[0].date <= today
    ensures Canonical(months)
    ensures Expand(months) == WeekMonths(weeks)
    ensures TotalWidth(months) == WeekWidth * |weeks|
  {
    ghost var ms := WeekMonths(weeks);
    var previousMonth, monthStartWeek;
    months, previousMonth, monthStartWeek := ScanMonths(weeks, today, ms);
    ScanFinish(months, ms, previousMonth, monthStartWeek);
    if previousMonth.Some? {
      var weeksInMonth := |weeks| - monthStartWeek;
      months := months + [HeatmapMonth(previousMonth.value, weeksInMonth * WeekWidth)];
    }
    assert Finished(months, ms);
  }

  /** The state of the month-label scan after `i` weeks: the labels closed
      so far code the weeks before the open run, the open run holds weeks of
      one month, and the last closed label names another month. */
  ghost predicate ScanState(months: seq<HeatmapMonth>, ms: seq<int>, previousMonth: Option<int>, start: int, i: int) {
    && 0 <= start <= i <= |ms|
    && (i > 0 ==> previousMonth == Some(ms[i - 1]) && start < i)
    && (i == 0 ==> previousMonth == None && start == 0)
    && (forall j :: start <= j < i ==> ms[j] == ms[i - 1])
    && Canonical(months)
    && Expand(months) == ms[..start]
    && (months != [] ==> i > 0 && months[|months| - 1].monthName != ms[i - 1])
  }

  /** A week of the open run's month extends the open run. */
  lemma ScanSameMonth(months: seq<HeatmapMonth>, ms: seq<int>, previousMonth: Option<int>, start: int, i: int)
    requires i < |ms| && ScanState(months, ms, previousMonth, start, i)
    requires i == 0 || ms[i] == ms[i - 1]
    ensures ScanState(months, ms, Some(ms[i]), start, i + 1)
  {
  }

  /** A week of a new month closes the open run and opens one at week `i`. */
  lemma ScanNewMonth(months: seq<HeatmapMonth>, ms: seq<int>, previousMonth: Option<int>, start: int, i: int)
    requires i < |ms| && ScanState(months, ms, previousMonth, start, i)
    requires i > 0 && ms[i] != ms[i - 1]
    ensures ScanState(months + [HeatmapMonth(ms[i - 1], (i - start) * WeekWidth)], ms, Some(ms[i]), i, i + 1)
  {
    CloseLabel(months, ms, start, i);
  }

  /** A finished label row for the week months `ms`. */
  ghost predicate Finished(labels: seq<HeatmapMonth>, ms: seq<int>) {
    Canonical(labels) && Expand(labels) == ms && TotalWidth(labels) == WeekWidth * |ms|
  }

  /** Flushing the open run after the last week completes the labels; with
      no weeks there is nothing to flush. */
  lemma ScanFinish(months: seq<HeatmapMonth>, ms: seq<int>, previousMonth: Option<int>, start: int)
    requires ScanState(months, ms, previousMonth, start, |ms|)
    ensures previousMonth.Some? ==> Finished(months + [HeatmapMonth(previousMonth.value, (|ms| - start) * WeekWidth)], ms)
    ensures previousMonth.None? ==> Finished(months, ms)
  {
    assert ms[..|ms|] == ms;
    if previousMonth.Some? {
      CloseLabel(months, ms, start, |ms|);
      TotalWidthOfCanonical(months + [HeatmapMonth(previousMonth.value, (|ms| - start) * WeekWidth)]);
    } else {
      TotalWidthOfCanonical(months);
    }
  }

  /** The loop of the month-label scan. */
  method ScanMonths(weeks: seq<HeatmapWeek>, today: int, ghost ms: seq<int>)
    returns (months: seq<HeatmapMonth>, previousMonth: Option<int>, monthStartWeek: int)
    requires forall w :: 0 <= w < |weeks| ==> |weeks[w].days| > 0 && weeks[w].days[0].date <= today
    requires |ms| == |weeks| && forall w :: 0 <= w < |weeks| ==> ms[w] == MonthOf(weeks[w].days[0].date)
    ensures ScanState(months, ms, previousMonth, monthStartWeek, |ms|)
  {
    months := [];
    previousMonth := None;
    monthStartWeek := 0;
    for i := 0 to |weeks|
      invariant ScanState(months, ms, previousMonth, monthStartWeek, i)
    {
      var currentMonth := WeekMonth(weeks[i].days, today, ms[i]);
      months, previousMonth, monthStartWeek := ScanWeek(months, ms, previousMonth, monthStartWeek, i, currentMonth);
    }
  }

  /** One turn of the scan: a week whose month differs from the open run's
      closes that run's label and opens a run at this week. */
  method ScanWeek(months: seq<HeatmapMonth>, ghost ms: seq<int>, previousMonth: Option<int>, monthStartWeek: int,
                  i: int, currentMonth: int)
    returns (months': seq<HeatmapMonth>, previousMonth': Option<int>, monthStartWeek': int)
    requires i < |ms| && ScanState(months, ms, previousMonth, monthStartWeek, i) && currentMonth == ms[i]
    ensures ScanState(months', ms, previousMonth', monthStartWeek', i + 1)
  {
    months', monthStartWeek' := months, monthStartWeek;
    if Some(currentMonth) != previousMonth && i > 0 {
      ScanNewMonth(months, ms, previousMonth, monthStartWeek, i);
      var weeksInMonth := i - monthStartWeek;
      if weeksInMonth > 0 && previousMonth.Some? {
        months' := months + [HeatmapMonth(previousMonth.value, weeksInMonth * WeekWidth)];
      }
      monthStartWeek' := i;
    } else {
      ScanSameMonth(months, ms, previousMonth, monthStartWeek, i);
    }
    previousMonth' := Some(currentMonth);
  }

  /** The month that labels a week: the month of its first day on or before
      today, which is its Sunday. */
  method WeekMonth(days: seq<HeatmapDay>, today: int, ghost m: int) returns (month: int)
    requires |days| > 0 && days[0].date <= today && m == MonthOf(days[0].date)
    ensures month == m
  {
    FirstDayIsHead(days, today);
    var firstDay := FirstDayOnOrBefore(days, today);
    month := MonthOf(firstDay.value.date);
  }

  /** A week whose Sunday is on or before today is labelled by that Sunday. */
  lemma FirstDayIsHead(days: seq<HeatmapDay>, today: int)
    requires |days| > 0 && days[0].date <= today
    ensures FirstDayOnOrBefore(days, today) == Some(days[0])
  {
  }

  /** Closing the open run ms[start..end] extends a canonical row that codes
      ms[..start] to one that codes ms[..end]. */
  lemma CloseLabel(months: seq<HeatmapMonth>, ms: seq<int>, start: int, end: int)
    requires 0 <= start < end <= |ms|
    requires forall j :: start <= j < end ==> ms[j] == ms[end - 1]
    requires Canonical(months) && Expand(months) == ms[..start]
    requires months != [] ==> months[|months| - 1].monthName != ms[end - 1]
    ensures var m := months + [HeatmapMonth(ms[end - 1], (end - start) * WeekWidth)];
      Canonical(m) && Expand(m) == ms[..end] && m[|m| - 1].monthName == ms[end - 1]
  {
    var e := HeatmapMonth(ms[end - 1], (end - start) * WeekWidth);
    ExpandSnoc(months, e);
    assert (end - start) * WeekWidth / WeekWidth == end - start;
    assert Expand([e]) == Repeat(e.monthName, end - start) + Expand([]);
    assert Repeat(e.monthName, end - start) == ms[start..end];
    assert ms[..end] == ms[..start] + ms[start..end];
  }

  /** Appending a label appends its weeks. */
  lemma {:induction false} ExpandSnoc(labels: seq<HeatmapMonth>, entry: HeatmapMonth)
    ensures Expand(labels + [entry]) == Expand(labels) + Expand([entry])
  {
    if labels != [] {
      assert (labels + [entry])[1..] == labels[1..] + [entry];
      ExpandSnoc(labels[1..], entry);
    } else {
      assert labels + [entry] == [entry];
    }
  }

  /** GenerateHeatmap: aligns the start of the grid to a Sunday by stepping
      back a day at a time, emits whole weeks while the current date is not
      after today, then builds the month labels. */
  method BuildHeatmap(counts: map<int, int>, today: int) returns (weeks: seq<HeatmapWeek>, months: seq<HeatmapMonth>)
    ensures weeks == HeatmapWeeksFor(counts, today)
    ensures months == RunLengths(WeekMonths(weeks))
    ensures TotalWidth(months) == WeekWidth * WeeksShown
  {
    var startDate := today - 364;
    while DayOfWeek(startDate) != Sunday
      invariant startDate <= today - 364
      invariant SundayOnOrBefore(startDate) == GridStart(today)
      decreases DayOfWeek(startDate)
    {
      DayOfWeekPred(startDate);
      startDate := startDate - 1;
    }
    assert startDate == GridStart(today);
    ghost var spec := HeatmapWeeksFor(counts, today);
    var currentDate := startDate;
    weeks := [];
    while currentDate <= today
      invariant |weeks| <= WeeksShown
      invariant currentDate == startDate + 7 * |weeks|
      invariant weeks == spec[..|weeks|]
      decreases today - currentDate
    {
      var days: seq<HeatmapDay> := [];
      for i := 0 to DaysPerWeek
        invariant currentDate == startDate + 7 * |weeks| + i
        invariant days == spec[|weeks|].days[..i]
      {
        if currentDate > today {
          days := days + [HeatmapDay(currentDate, 0, Gray, NoTooltip)];
        } else {
          var sessionCount := if currentDate in counts then counts[currentDate] else 0;
          var color := GetHeatmapColor(sessionCount);
          days := days + [HeatmapDay(currentDate, sessionCount, color, DayTooltip(currentDate, sessionCount))];
        }
        currentDate := currentDate + 1;
      }
      assert days == spec[|weeks|].days;
      weeks := weeks + [HeatmapWeek(days)];
    }
    assert weeks == spec;
    months := MonthLabels(weeks, today);
    CanonicalIsRunLengths(months, WeekMonths(weeks));
  }
}
