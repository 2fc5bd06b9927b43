/** The Pomodoro engine of the timer screen as a function of its state: every
    command of TimerViewModel is a function from the state before it (and the
    clock reading `now`, in seconds) to the state after it. The class in
    TimerViewModels performs the same steps field by field and is proved to
    agree with these functions. Time spans are whole seconds. */
module Pomodoro {
  import opened Calendar
  import opened Heatmap
  import opened Streaks
  import opened SessionCounts

  datatype TimerState = Work | LongWork | ShortBreak | LongBreak

  predicate IsWorkState(s: TimerState) {
    s == Work || s == LongWork
  }

  predicate IsBreakState(s: TimerState) {
    s == ShortBreak || s == LongBreak
  }

  /** Every state is either a work state or a break state, never both. */
  lemma WorkOrBreak(s: TimerState)
    ensures IsWorkState(s) != IsBreakState(s)
  {
  }

  const PomodorosBeforeLongBreak: int := 4
  const SecondsPerMinute: int := 60
  /** TimeSpan.FromMinutes(5): the step of AddTime and SubtractTime. */
  const TimeStep: int := 300
  /** TimeSpan.FromMinutes(1): what SubtractTime leaves when the step would
      not leave a positive time. */
  const MinimumAfterSubtract: int := 60
  /** TimeSpan.FromSeconds(5): the length of the test timer. */
  const TestTimerSeconds: int := 5

  /** The three user-set session lengths, in minutes. */
  datatype Settings = Settings(workSessionMinutes: int, shortBreakMinutes: int, longBreakMinutes: int)

  const DefaultSettings: Settings := Settings(25, 5, 15)

  /** The full length of a session in state `s`: the state-to-duration
      switch, in which LongWork also takes WorkDuration. */
  function NominalDuration(settings: Settings, s: TimerState): (d: int)
    ensures IsWorkState(s) ==> d == settings.workSessionMinutes * SecondsPerMinute
    ensures s == ShortBreak ==> d == settings.shortBreakMinutes * SecondsPerMinute
    ensures s == LongBreak ==> d == settings.longBreakMinutes * SecondsPerMinute
  {
    match s
    case Work => settings.workSessionMinutes * SecondsPerMinute
    case LongWork => settings.workSessionMinutes * SecondsPerMinute
    case ShortBreak => settings.shortBreakMinutes * SecondsPerMinute
    case LongBreak => settings.longBreakMinutes * SecondsPerMinute
  }

  /** The break that follows a work session: the long one exactly when the
      state is Work and the (positive) count of completed pomodoros is a
      multiple of four. */
  function BreakAfterWork(s: TimerState, completed: nat): (b: TimerState)
    ensures IsBreakState(b)
    ensures b == LongBreak <==> s == Work && completed > 0 && completed % PomodorosBeforeLongBreak == 0
  {
    if completed > 0 && completed % PomodorosBeforeLongBreak == 0 && s == Work then LongBreak else ShortBreak
  }

  /** The session that follows the current one: a break after work, work
      after a break. */
  function NextSession(s: TimerState, completed: nat): (n: TimerState)
    ensures IsWorkState(s) <==> IsBreakState(n)
    ensures IsBreakState(s) ==> n == Work
    ensures IsWorkState(s) ==> n == BreakAfterWork(s, completed)
  {
    if IsWorkState(s) then BreakAfterWork(s, completed) else Work
  }

  /** The statistics block: today's date as last seen by the rollover, the
      time totals and the session counters. The week and month time totals
      are displayed but never written. */
  datatype Statistics = Statistics(
    todayDate: int,
    totalWorkTimeToday: int,
    totalBreakTimeToday: int,
    totalWorkTimeWeek: int,
    totalWorkTimeMonth: int,
    sessionsToday: nat,
    sessionsWeek: nat,
    sessionsMonth: nat)

  /** The per-day session dictionary and the heatmap built from it. */
  datatype HeatmapView = HeatmapView(dailySessionCounts: map<int, int>, weeks: seq<HeatmapWeek>, months: seq<HeatmapMonth>)

  /** The heatmap GenerateHeatmap lays out from `counts` on day `today`. */
  function GenerateHeatmap(counts: map<int, int>, today: int): (h: HeatmapView)
    ensures h.dailySessionCounts == counts
    ensures h.weeks == HeatmapWeeksFor(counts, today) && |h.weeks| == WeeksShown
    ensures Canonical(h.months) && Expand(h.months) == WeekMonths(h.weeks)
  {
    var weeks := HeatmapWeeksFor(counts, today);
    var months := RunLengths(WeekMonths(weeks));
    ExpandRunLengths(WeekMonths(weeks));
    HeatmapView(counts, weeks, months)
  }

  datatype TimerModel = TimerModel(
    settings: Settings,
    state: TimerState,
    timeRemaining: int,
    isRunning: bool,
    completedPomodoros: nat,
    endTime: int,
    sessionStartTime: int,
    stats: Statistics,
    streak: Streak,
    heatmap: HeatmapView)

  /** What every reachable state satisfies: the three session counters are
      never reset, so they all equal the number of completed pomodoros, which
      is also the sum of the heatmap dictionary; every dictionary entry is
      positive; and the current streak never exceeds the longest. */
  ghost predicate Valid(t: TimerModel) {
    && t.stats.sessionsToday == t.completedPomodoros
    && t.stats.sessionsWeek == t.completedPomodoros
    && t.stats.sessionsMonth == t.completedPomodoros
    && AllPositive(t.heatmap.dailySessionCounts)
    && TotalCount(t.heatmap.dailySessionCounts) == t.completedPomodoros
    && Consistent(t.streak)
  }

  /** The constructor: today's date, no last session, zeroed statistics, the
      heatmap of an empty dictionary, then SwitchToWork. The end and start
      instants keep their default (DateTime.MinValue). */
  function Initial(now: int): (t: TimerModel)
    ensures Valid(t)
    ensures t.state == Work && !t.isRunning && t.timeRemaining == 25 * SecondsPerMinute
    ensures t.completedPomodoros == 0 && t.streak == NoStreak && t.stats.todayDate == DayOf(now)
  {
    TimerModel(DefaultSettings, Work, NominalDuration(DefaultSettings, Work), false, 0, 0, 0,
      Statistics(DayOf(now), 0, 0, 0, 0, 0, 0, 0), NoStreak, GenerateHeatmap(map[], DayOf(now)))
  }

  // ---- statistics ----

  /** CheckAndResetDailyStats: on a new day the two daily time totals start
      again from zero; the session counters are left alone. */
  function CheckAndResetDailyStats(t: TimerModel, today: int): (r: TimerModel)
    ensures r.stats.todayDate == today
    ensures today == t.stats.todayDate ==> r == t
    ensures today != t.stats.todayDate ==> r.stats.totalWorkTimeToday == 0 && r.stats.totalBreakTimeToday == 0
    ensures r.stats.sessionsToday == t.stats.sessionsToday && r.stats.sessionsWeek == t.stats.sessionsWeek &&
      r.stats.sessionsMonth == t.stats.sessionsMonth
    ensures r == t.(stats := r.stats)
    ensures Valid(t) ==> Valid(r)
  {
    if today != t.stats.todayDate then
      t.(stats := t.stats.(todayDate := today, totalWorkTimeToday := 0, totalBreakTimeToday := 0))
    else t
  }

  /** TrackSessionTime: the elapsed time goes to the work total in a work
      state and to the break total otherwise; then the streak is updated. */
  function TrackSessionTime(t: TimerModel, duration: int, today: int): (r: TimerModel)
    ensures IsWorkState(t.state) ==>
      r.stats == t.stats.(totalWorkTimeToday := t.stats.totalWorkTimeToday + duration)
    ensures !IsWorkState(t.state) ==>
      r.stats == t.stats.(totalBreakTimeToday := t.stats.totalBreakTimeToday + duration)
    ensures r.streak == UpdateStreak(t.streak, today)
    ensures r == t.(stats := r.stats, streak := r.streak)
    ensures Valid(t) ==> Valid(r)
  {
    var credited :=
      if IsWorkState(t.state) then t.stats.(totalWorkTimeToday := t.stats.totalWorkTimeToday + duration)
      else t.stats.(totalBreakTimeToday := t.stats.totalBreakTimeToday + duration);
    t.(stats := credited, streak := UpdateStreak(t.streak, today))
  }

  // ---- run control ----

  /** StartTimer: nothing happens when the timer already runs; otherwise the
      session starts now, ends after the remaining time, the timer runs, and
      the daily rollover is applied last. */
  function StartTimer(t: TimerModel, now: int): (r: TimerModel)
    ensures t.isRunning ==> r == t
    ensures r.isRunning
    ensures !t.isRunning ==> r.sessionStartTime == now && r.endTime == now + t.timeRemaining
    ensures r.state == t.state && r.timeRemaining == t.timeRemaining && r.completedPomodoros == t.completedPomodoros
    ensures r.settings == t.settings && r.streak == t.streak && r.heatmap == t.heatmap
    ensures !t.isRunning ==> r.stats == CheckAndResetDailyStats(t, DayOf(now)).stats
    ensures Valid(t) ==> Valid(r)
  {
    if t.isRunning then t
    else CheckAndResetDailyStats(t.(sessionStartTime := now, endTime := now + t.timeRemaining, isRunning := true), DayOf(now))
  }

  /** PauseTimer: a running timer credits the time since the session start
      to the total of the current state's kind and updates the streak; then
      the timer is stopped. Pausing a paused timer changes nothing. */
  function PauseTimer(t: TimerModel, now: int): (r: TimerModel)
    ensures !r.isRunning
    ensures !t.isRunning ==> r == t
    ensures t.isRunning && IsWorkState(t.state) ==>
      r.stats.totalWorkTimeToday == t.stats.totalWorkTimeToday + (now - t.sessionStartTime) &&
      r.stats.totalBreakTimeToday == t.stats.totalBreakTimeToday
    ensures t.isRunning && !IsWorkState(t.state) ==>
      r.stats.totalBreakTimeToday == t.stats.totalBreakTimeToday + (now - t.sessionStartTime) &&
      r.stats.totalWorkTimeToday == t.stats.totalWorkTimeToday
    ensures t.isRunning ==> r.streak == UpdateStreak(t.streak, DayOf(now))
    ensures r.stats.todayDate == t.stats.todayDate
    ensures r == t.(isRunning := false, stats := r.stats, streak := r.streak)
    ensures Valid(t) ==> Valid(r)
  {
    var tracked := if t.isRunning then TrackSessionTime(t, now - t.sessionStartTime, DayOf(now)) else t;
    tracked.(isRunning := false)
  }

  /** StopTimer: pause, then the remaining time goes back to the full
      length of the current state. */
  function StopTimer(t: TimerModel, now: int): (r: TimerModel)
    ensures !r.isRunning && r.state == t.state && r.timeRemaining == NominalDuration(t.settings, t.state)
    ensures r == PauseTimer(t, now).(timeRemaining := r.timeRemaining)
    ensures Valid(t) ==> Valid(r)
  {
    var p := PauseTimer(t, now);
    p.(timeRemaining := NominalDuration(p.settings, p.state))
  }

  /** ResetTimer: StopTimer followed by the same reset of the remaining time. */
  function ResetTimer(t: TimerModel, now: int): (r: TimerModel)
    ensures !r.isRunning && r.timeRemaining == NominalDuration(t.settings, t.state)
  {
    var s := StopTimer(t, now);
    s.(timeRemaining := NominalDuration(s.settings, s.state))
  }

  /** Resetting is the same as stopping. */
  lemma ResetIsStop(t: TimerModel, now: int)
    ensures ResetTimer(t, now) == StopTimer(t, now)
  {
  }

  /** SwitchToWork, SwitchToShortBreak, SwitchToLongBreak: stop, enter the
      target state, and show its full length. Apart from the target, the
      only effect is that of pausing. */
  function SwitchTo(t: TimerModel, now: int, target: TimerState): (r: TimerModel)
    ensures !r.isRunning && r.state == target && r.timeRemaining == NominalDuration(t.settings, target)
    ensures r == PauseTimer(t, now).(state := target, timeRemaining := r.timeRemaining)
    ensures Valid(t) ==> Valid(r)
  {
    var s := StopTimer(t, now);
    s.(state := target, timeRemaining := NominalDuration(s.settings, target))
  }

  /** Switching twice to the same state is switching once. */
  lemma SwitchToIdempotent(t: TimerModel, now: int, later: int, target: TimerState)
    ensures SwitchTo(SwitchTo(t, now, target), later, target) == SwitchTo(t, now, target)
  {
  }

  /** ToggleTimer: pause a running timer, start a paused one. */
  function ToggleTimer(t: TimerModel, now: int): (r: TimerModel)
    ensures r.isRunning == !t.isRunning
    ensures r.state == t.state && r.timeRemaining == t.timeRemaining && r.completedPomodoros == t.completedPomodoros
    ensures Valid(t) ==> Valid(r)
  {
    if t.isRunning then PauseTimer(t, now) else StartTimer(t, now)
  }

  /** Starting and pausing at the same instant credits nothing and leaves
      the timer as it was, except that the pause still counts as a session
      for the streak (and a day change resets the daily totals). */
  lemma ToggleTwice(t: TimerModel, now: int)
    requires !t.isRunning && t.stats.todayDate == DayOf(now)
    ensures ToggleTimer(ToggleTimer(t, now), now) ==
      t.(sessionStartTime := now, endTime := now + t.timeRemaining, streak := UpdateStreak(t.streak, DayOf(now)))
  {
  }

  /** StartTestTimer: stop, set five seconds, start. */
  function StartTestTimer(t: TimerModel, now: int): (r: TimerModel)
    ensures r.isRunning && r.state == t.state
    ensures r.timeRemaining == TestTimerSeconds && r.endTime == now + TestTimerSeconds && r.sessionStartTime == now
    ensures Valid(t) ==> Valid(r)
  {
    StartTimer(StopTimer(t, now).(timeRemaining := TestTimerSeconds), now)
  }

  // ---- time adjustment and skipping ----

  /** AddTime: five more minutes; a running timer is paused and restarted
      around the change, so it ends five minutes after the last shown
      remaining time, counted from now. */
  function AddTime(t: TimerModel, now: int): (r: TimerModel)
    ensures r.timeRemaining == t.timeRemaining + TimeStep
    ensures r.isRunning == t.isRunning && r.state == t.state && r.completedPomodoros == t.completedPomodoros
    ensures !t.isRunning ==> r == t.(timeRemaining := t.timeRemaining + TimeStep)
    ensures t.isRunning ==> r.endTime == now + r.timeRemaining && r.sessionStartTime == now
    ensures Valid(t) ==> Valid(r)
  {
    var p := if t.isRunning then PauseTimer(t, now) else t;
    var added := p.(timeRemaining := p.timeRemaining + TimeStep);
    if t.isRunning then StartTimer(added, now) else added
  }

  /** SubtractTime: five minutes less when that leaves a positive time,
      otherwise exactly one minute; so the result is always positive, and may
      be under a minute. Running state is kept as in AddTime. */
  function SubtractTime(t: TimerModel, now: int): (r: TimerModel)
    ensures r.timeRemaining > 0
    ensures t.timeRemaining - TimeStep > 0 ==> r.timeRemaining == t.timeRemaining - TimeStep
    ensures t.timeRemaining - TimeStep <= 0 ==> r.timeRemaining == MinimumAfterSubtract
    ensures r.isRunning == t.isRunning && r.state == t.state && r.completedPomodoros == t.completedPomodoros
    ensures !t.isRunning ==> r == t.(timeRemaining := r.timeRemaining)
    ensures t.isRunning ==> r.endTime == now + r.timeRemaining && r.sessionStartTime == now
    ensures Valid(t) ==> Valid(r)
  {
    var p := if t.isRunning then PauseTimer(t, now) else t;
    var newTime := p.timeRemaining - TimeStep;
    var subtracted := p.(timeRemaining := if newTime > 0 then newTime else MinimumAfterSubtract);
    if t.isRunning then StartTimer(subtracted, now) else subtracted
  }

  /** Adding and then subtracting five minutes gives back any positive
      remaining time, and a paused timer exactly as it was. */
  lemma AddThenSubtract(t: TimerModel, now: int)
    requires t.timeRemaining > 0
    ensures SubtractTime(AddTime(t, now), now).timeRemaining == t.timeRemaining
    ensures !t.isRunning ==> SubtractTime(AddTime(t, now), now) == t
  {
  }

  /** SkipSession: stop, then switch to the next session (a break after
      work, by the same rule as expiry but on the current count; work after
      a break). The count is unchanged and the timer ends stopped at the
      full length of the new state. */
  function SkipSession(t: TimerModel, now: int): (r: TimerModel)
    ensures r.completedPomodoros == t.completedPomodoros
    ensures r.state == NextSession(t.state, t.completedPomodoros)
    ensures !r.isRunning && r.timeRemaining == NominalDuration(t.settings, r.state)
    ensures r.stats == PauseTimer(t, now).stats && r.streak == PauseTimer(t, now).streak
    ensures Valid(t) ==> Valid(r)
  {
    var s := StopTimer(t, now);
    if IsWorkState(s.state) then
      if s.completedPomodoros > 0 && s.completedPomodoros % PomodorosBeforeLongBreak == 0 && s.state == Work then
        SwitchTo(s, now, LongBreak)
      else
        SwitchTo(s, now, ShortBreak)
    else
      SwitchTo(s, now, Work)
  }

  // ---- the tick ----

  /** UpdateHeatmapForToday: one more session for today, then the heatmap
      is built again. */
  function UpdateHeatmapForToday(t: TimerModel, today: int): (r: TimerModel)
    ensures r.heatmap == GenerateHeatmap(RecordSession(t.heatmap.dailySessionCounts, today), today)
    ensures r == t.(heatmap := r.heatmap)
  {
    t.(heatmap := GenerateHeatmap(RecordSession(t.heatmap.dailySessionCounts, today), today))
  }

  /** The counters after a Work session expired. */
  function CountPomodoro(t: TimerModel, today: int): (r: TimerModel)
    ensures Valid(t) ==> Valid(r)
  {
    RecordSessionTotal(t.heatmap.dailySessionCounts, today);
    var counted := t.(completedPomodoros := t.completedPomodoros + 1,
      stats := t.stats.(sessionsToday := t.stats.sessionsToday + 1,
                        sessionsWeek := t.stats.sessionsWeek + 1,
                        sessionsMonth := t.stats.sessionsMonth + 1));
    UpdateHeatmapForToday(counted, today)
  }

  /** TimerCallback: the remaining time becomes the time left until the end
      instant; while it is positive nothing else happens. Otherwise it is
      set to zero and the timer paused. An expired Work session counts one
      pomodoro (and one session for today in every counter and in the
      heatmap); an expired LongWork session counts nothing. Either work
      state moves on to its break, which starts at once. An expired break
      returns to Work, stopped at the full work length. */
  function TimerCallback(t: TimerModel, now: int): (r: TimerModel)
    ensures t.endTime - now > 0 ==> r == t.(timeRemaining := t.endTime - now)
  {
    var ticked := t.(timeRemaining := t.endTime - now);
    if ticked.timeRemaining > 0 then ticked
    else Expire(PauseTimer(ticked.(timeRemaining := 0), now), now)
  }

  /** On expiry an expired Work session, and only it, counts one pomodoro
      and one session in every counter and in today's heatmap cell; other
      days, the settings and the streak of the pause are kept. */
  lemma ExpiryCounts(t: TimerModel, now: int)
    requires t.endTime - now <= 0
    ensures var r := TimerCallback(t, now);
      var p := PauseTimer(t, now);
      var counted := if t.state == Work then 1 else 0;
      && r.completedPomodoros == t.completedPomodoros + counted
      && r.stats.sessionsToday == t.stats.sessionsToday + counted
      && r.stats.sessionsWeek == t.stats.sessionsWeek + counted
      && r.stats.sessionsMonth == t.stats.sessionsMonth + counted
      && CountOn(r.heatmap.dailySessionCounts, DayOf(now)) == CountOn(t.heatmap.dailySessionCounts, DayOf(now)) + counted
      && (forall d :: d != DayOf(now) ==> CountOn(r.heatmap.dailySessionCounts, d) == CountOn(t.heatmap.dailySessionCounts, d))
      && r.streak == p.streak
      && r.settings == t.settings
  {
  }

  /** An expired work session (of either kind) moves on to its break, which
      runs at once for its full length. */
  lemma WorkExpiry(t: TimerModel, now: int)
    requires t.endTime - now <= 0 && IsWorkState(t.state)
    ensures var r := TimerCallback(t, now);
      && r.state == BreakAfterWork(t.state, r.completedPomodoros)
      && r.isRunning
      && r.timeRemaining == NominalDuration(t.settings, r.state)
      && r.sessionStartTime == now && r.endTime == now + r.timeRemaining
  {
  }

  /** An expired break returns to Work, stopped at the full work length,
      counting nothing. */
  lemma BreakExpiry(t: TimerModel, now: int)
    requires t.endTime - now <= 0 && !IsWorkState(t.state)
    ensures var r := TimerCallback(t, now);
      r.state == Work && !r.isRunning && r.timeRemaining == NominalDuration(t.settings, Work) &&
      r.stats == PauseTimer(t, now).stats && r.heatmap == t.heatmap
  {
  }

  /** After a counted pomodoro the heatmap is rebuilt for today. */
  lemma WorkExpiryHeatmap(t: TimerModel, now: int)
    requires t.endTime - now <= 0 && t.state == Work
    ensures var r := TimerCallback(t, now);
      r.heatmap == GenerateHeatmap(r.heatmap.dailySessionCounts, DayOf(now))
  {
  }

  /** The tick keeps the timer's invariant. */
  lemma TimerCallbackKeepsValid(t: TimerModel, now: int)
    requires Valid(t)
    ensures Valid(TimerCallback(t, now))
  {
  }

  /** What follows the pause of an expired session `p`: count a Work
      session, then start the break after work, or go back to Work after a
      break. */
  function Expire(p: TimerModel, now: int): (r: TimerModel)
    ensures IsWorkState(p.state) ==> r.isRunning && r.state == BreakAfterWork(p.state, r.completedPomodoros)
    ensures r.completedPomodoros == p.completedPomodoros + (if p.state == Work then 1 else 0)
    ensures !IsWorkState(p.state) ==> r.state == Work && !r.isRunning
    ensures r.timeRemaining == NominalDuration(p.settings, r.state) && r.settings == p.settings
  {
    if IsWorkState(p.state) then
      var counted := if p.state == Work then CountPomodoro(p, DayOf(now)) else p;
      var switched :=
        if counted.completedPomodoros > 0 && counted.completedPomodoros % PomodorosBeforeLongBreak == 0 && counted.state == Work
        then SwitchTo(counted, now, LongBreak)
        else SwitchTo(counted, now, ShortBreak);
      StartTimer(switched, now)
    else
      SwitchTo(p, now, Work)
  }

  /** The fourth work session of every round is followed by the long break:
      a pomodoro completed while "n/4 Sessions" shows n = 4 leads to it. */
  lemma LongBreakEveryFourth(t: TimerModel, now: int)
    requires t.state == Work && t.endTime - now <= 0
    ensures TimerCallback(t, now).state == LongBreak <==> t.completedPomodoros % PomodorosBeforeLongBreak == 3
  {
    var p := PauseTimer(t.(timeRemaining := 0), now);
    assert TimerCallback(t, now) == Expire(p, now);
    FourthSession(t.completedPomodoros);
  }

  /** The count after the fourth session of a round is a multiple of four. */
  lemma FourthSession(c: nat)
    ensures BreakAfterWork(Work, c + 1) == LongBreak <==> c % PomodorosBeforeLongBreak == 3
  {
  }

  // ---- settings ----

  /** Setting the work length; the change hook runs only when the value
      differs, and then shows the new length on a stopped work timer. */
  function SetWorkSessionMinutes(t: TimerModel, value: int): (r: TimerModel)
    ensures r.settings == t.settings.(workSessionMinutes := value)
    ensures value != t.settings.workSessionMinutes && !t.isRunning && IsWorkState(t.state) ==>
      r.timeRemaining == value * SecondsPerMinute
    ensures !(value != t.settings.workSessionMinutes && !t.isRunning && IsWorkState(t.state)) ==>
      r.timeRemaining == t.timeRemaining
    ensures r == t.(settings := r.settings, timeRemaining := r.timeRemaining)
  {
    if value == t.settings.workSessionMinutes then t
    else
      var changed := t.(settings := t.settings.(workSessionMinutes := value));
      if !changed.isRunning && IsWorkState(changed.state) then changed.(timeRemaining := NominalDuration(changed.settings, Work)) else changed
  }

  /** Setting the short-break length, with its change hook. */
  function SetShortBreakMinutes(t: TimerModel, value: int): (r: TimerModel)
    ensures r.settings == t.settings.(shortBreakMinutes := value)
    ensures value != t.settings.shortBreakMinutes && !t.isRunning && t.state == ShortBreak ==>
      r.timeRemaining == value * SecondsPerMinute
    ensures !(value != t.settings.shortBreakMinutes && !t.isRunning && t.state == ShortBreak) ==>
      r.timeRemaining == t.timeRemaining
    ensures r == t.(settings := r.settings, timeRemaining := r.timeRemaining)
  {
    if value == t.settings.shortBreakMinutes then t
    else
      var changed := t.(settings := t.settings.(shortBreakMinutes := value));
      if !changed.isRunning && changed.state == ShortBreak then changed.(timeRemaining := NominalDuration(changed.settings, ShortBreak)) else changed
  }

  /** Setting the long-break length, with its change hook. */
  function SetLongBreakMinutes(t: TimerModel, value: int): (r: TimerModel)
    ensures r.settings == t.settings.(longBreakMinutes := value)
    ensures value != t.settings.longBreakMinutes && !t.isRunning && t.state == LongBreak ==>
      r.timeRemaining == value * SecondsPerMinute
    ensures !(value != t.settings.longBreakMinutes && !t.isRunning && t.state == LongBreak) ==>
      r.timeRemaining == t.timeRemaining
    ensures r == t.(settings := r.settings, timeRemaining := r.timeRemaining)
  {
    if value == t.settings.longBreakMinutes then t
    else
      var changed := t.(settings := t.settings.(longBreakMinutes := value));
      if !changed.isRunning && changed.state == LongBreak then changed.(timeRemaining := NominalDuration(changed.settings, LongBreak)) else changed
  }

  /** A stopped timer showing the full length of its state keeps showing the
      full length whatever length is changed. */
  lemma SettingsKeepIdleTimerFull(t: TimerModel, value: int)
    requires !t.isRunning && t.timeRemaining == NominalDuration(t.settings, t.state)
    ensures var r := SetWorkSessionMinutes(t, value); r.timeRemaining == NominalDuration(r.settings, r.state)
    ensures var r := SetShortBreakMinutes(t, value); r.timeRemaining == NominalDuration(r.settings, r.state)
    ensures var r := SetLongBreakMinutes(t, value); r.timeRemaining == NominalDuration(r.settings, r.state)
  {
  }
}
