/** TimerViewModel: the timer screen's state as mutable fields and its
    commands as methods that update them step by step. The clock is the
    parameter `now` (seconds); the repeating System.Threading.Timer is
    replaced by calls of TimerCallback. Each method is proved to produce the
    state that the function of the same name in Pomodoro computes from the
    state before it. */
module TimerViewModels {
  import opened Calendar
  import opened Heatmap
  import opened Streaks
  import opened Pomodoro
  import SessionCounts

  class TimerViewModel {
    var workSessionMinutes: int
    var shortBreakMinutes: int
    var longBreakMinutes: int
    var endTime: int
    var timeRemaining: int
    var completedPomodoros: nat
    var isRunning: bool
    var currentState: TimerState
    var totalWorkTimeToday: int
    var totalBreakTimeToday: int
    var totalWorkTimeWeek: int
    var totalWorkTimeMonth: int
    var sessionsToday: nat
    var sessionsWeek: nat
    var sessionsMonth: nat
    var currentStreak: int
    var longestStreak: int
    var lastSessionDate: int
    var heatmapWeeks: seq<HeatmapWeek>
    var heatmapMonths: seq<HeatmapMonth>
    var dailySessionCounts: map<int, int>
    var sessionStartTime: int
    var todayDate: int

    /** The fields as one value. */
    function Model(): TimerModel
      reads this
    {
      TimerModel(
        Settings(workSessionMinutes, shortBreakMinutes, longBreakMinutes),
        currentState, timeRemaining, isRunning, completedPomodoros, endTime, sessionStartTime,
        Statistics(todayDate, totalWorkTimeToday, totalBreakTimeToday, totalWorkTimeWeek, totalWorkTimeMonth,
          sessionsToday, sessionsWeek, sessionsMonth),
        Streak(currentStreak, longestStreak, lastSessionDate),
        HeatmapView(dailySessionCounts, heatmapWeeks, heatmapMonths))
    }

    /** The constructor: field defaults, today's date, no last session, then
        LoadTodayStatistics, GenerateHeatmap and SwitchToWork. */
    constructor(now: int)
      ensures Model() == Initial(now)
      ensures Pomodoro.Valid(Model())
    {
      workSessionMinutes := 25;
      shortBreakMinutes := 5;
      longBreakMinutes := 15;
      endTime := 0;
      timeRemaining := 0;
      completedPomodoros := 0;
      isRunning := false;
      currentState := Work;
      totalWorkTimeToday := 0;
      totalBreakTimeToday := 0;
      totalWorkTimeWeek := 0;
      totalWorkTimeMonth := 0;
      sessionsToday := 0;
      sessionsWeek := 0;
      sessionsMonth := 0;
      currentStreak := 0;
      longestStreak := 0;
      heatmapWeeks := [];
      heatmapMonths := [];
      dailySessionCounts := map[];
      sessionStartTime := 0;
      todayDate := DayOf(now);
      lastSessionDate := MinValueDay;
      new;
      LoadTodayStatistics();
      GenerateHeatmap(now);
      SwitchToWork(now);
    }

    /** LoadTodayStatistics: the daily totals and both streak lengths start at zero. */
    method LoadTodayStatistics()
      modifies this
      ensures Model() == old(Model()).(
        stats := old(Model()).stats.(totalWorkTimeToday := 0, totalBreakTimeToday := 0),
        streak := old(Model()).streak.(current := 0, longest := 0))
    {
      totalWorkTimeToday := 0;
      totalBreakTimeToday := 0;
      currentStreak := 0;
      longestStreak := 0;
    }

    // ---- statistics ----

    method CheckAndResetDailyStats(now: int)
      modifies this
      ensures Model() == Pomodoro.CheckAndResetDailyStats(old(Model()), DayOf(now))
    {
      if DayOf(now) != todayDate {
        todayDate := DayOf(now);
        totalWorkTimeToday := 0;
        totalBreakTimeToday := 0;
      }
    }

    method TrackSessionTime(duration: int, now: int)
      modifies this
      ensures Model() == Pomodoro.TrackSessionTime(old(Model()), duration, DayOf(now))
    {
      if currentState == Work || currentState == LongWork {
        totalWorkTimeToday := totalWorkTimeToday + duration;
      } else {
        totalBreakTimeToday := totalBreakTimeToday + duration;
      }
      UpdateStreak(now);
    }

    method UpdateStreak(now: int)
      modifies this
      ensures Model() == old(Model()).(streak := Streaks.UpdateStreak(old(Model()).streak, DayOf(now)))
    {
      var today := DayOf(now);
      if lastSessionDate == MinValueDay {
        currentStreak := 1;
        lastSessionDate := today;
      } else if lastSessionDate == today {
        return;
      } else if lastSessionDate == today - 1 {
        currentStreak := currentStreak + 1;
        lastSessionDate := today;
      } else {
        currentStreak := 1;
        lastSessionDate := today;
      }
      if currentStreak > longestStreak {
        longestStreak := currentStreak;
      }
    }

    // ---- run control ----

    method StartTimer(now: int)
      modifies this
      ensures Model() == Pomodoro.StartTimer(old(Model()), now)
    {
      if isRunning {
        return;
      }
      sessionStartTime := now;
      endTime := now + timeRemaining;
      isRunning := true;
      CheckAndResetDailyStats(now);
    }

    method PauseTimer(now: int)
      modifies this
      ensures Model() == Pomodoro.PauseTimer(old(Model()), now)
    {
      if isRunning {
        var sessionDuration := now - sessionStartTime;
        TrackSessionTime(sessionDuration, now);
      }
      isRunning := false;
    }

    method StopTimer(now: int)
      modifies this
      ensures Model() == Pomodoro.StopTimer(old(Model()), now)
    {
      PauseTimer(now);
      timeRemaining := NominalDuration(Settings(workSessionMinutes, shortBreakMinutes, longBreakMinutes), currentState);
    }

    method ResetTimer(now: int)
      modifies this
      ensures Model() == Pomodoro.ResetTimer(old(Model()), now)
    {
      StopTimer(now);
      timeRemaining := NominalDuration(Settings(workSessionMinutes, shortBreakMinutes, longBreakMinutes), currentState);
    }

    method SwitchToWork(now: int)
      modifies this
      ensures Model() == SwitchTo(old(Model()), now, Work)
    {
      StopTimer(now);
      currentState := Work;
      timeRemaining := workSessionMinutes * SecondsPerMinute;
    }

    method SwitchToShortBreak(now: int)
      modifies this
      ensures Model() == SwitchTo(old(Model()), now, ShortBreak)
    {
      StopTimer(now);
      currentState := ShortBreak;
      timeRemaining := shortBreakMinutes * SecondsPerMinute;
    }

    method SwitchToLongBreak(now: int)
      modifies this
      ensures Model() == SwitchTo(old(Model()), now, LongBreak)
    {
      StopTimer(now);
      currentState := LongBreak;
      timeRemaining := longBreakMinutes * SecondsPerMinute;
    }

    method StartTestTimer(now: int)
      modifies this
      ensures Model() == Pomodoro.StartTestTimer(old(Model()), now)
    {
      StopTimer(now);
      timeRemaining := TestTimerSeconds;
      StartTimer(now);
    }

    method ToggleTimer(now: int)
      modifies this
      ensures Model() == Pomodoro.ToggleTimer(old(Model()), now)
    {
      if isRunning {
        PauseTimer(now);
      } else {
        StartTimer(now);
      }
    }

    // ---- time adjustment and skipping ----

    method AddTime(now: int)
      modifies this
      ensures Model() == Pomodoro.AddTime(old(Model()), now)
    {
      var wasRunning := isRunning;
      if wasRunning {
        PauseTimer(now);
      }
      timeRemaining := timeRemaining + TimeStep;
      if wasRunning {
        StartTimer(now);
      }
    }

    method SubtractTime(now: int)
      modifies this
      ensures Model() == Pomodoro.SubtractTime(old(Model()), now)
    {
      var wasRunning := isRunning;
      if wasRunning {
        PauseTimer(now);
      }
      var newTime := timeRemaining - TimeStep;
      timeRemaining := if newTime > 0 then newTime else MinimumAfterSubtract;
      if wasRunning {
        StartTimer(now);
      }
    }

    method SkipSession(now: int)
      modifies this
      ensures Model() == Pomodoro.SkipSession(old(Model()), now)
    {
      StopTimer(now);
      if currentState == Work || currentState == LongWork {
        if completedPomodoros > 0 && completedPomodoros % PomodorosBeforeLongBreak == 0 && currentState == Work {
          SwitchToLongBreak(now);
        } else {
          SwitchToShortBreak(now);
        }
      } else {
        SwitchToWork(now);
      }
    }

    // ---- the tick and the heatmap ----

    method TimerCallback(now: int)
      modifies this
      ensures Model() == Pomodoro.TimerCallback(old(Model()), now)
    {
      timeRemaining := endTime - now;
      if timeRemaining <= 0 {
        timeRemaining := 0;
        PauseTimer(now);
        AfterExpiry(now);
      }
    }

    /** The part of TimerCallback after the expired session was paused:
        count a Work session, switch to the break after work and start it,
        or go back to Work after a break. */
    method AfterExpiry(now: int)
      modifies this
      ensures Model() == Expire(old(Model()), now)
    {
      if currentState == Work || currentState == LongWork {
        if currentState == Work {
          CountPomodoro(now);
        }
        if completedPomodoros > 0 && completedPomodoros % PomodorosBeforeLongBreak == 0 && currentState == Work {
          SwitchToLongBreak(now);
        } else {
          SwitchToShortBreak(now);
        }
        StartTimer(now);
      } else {
        SwitchToWork(now);
      }
    }

    /** The counters of TimerCallback for an expired Work session. */
    method CountPomodoro(now: int)
      modifies this
      ensures Model() == Pomodoro.CountPomodoro(old(Model()), DayOf(now))
    {
      CountSessions();
      UpdateHeatmapForToday(now);
    }

    /** The pomodoro count and the three session counters go up by one. */
    method CountSessions()
      modifies this
      ensures Model() == old(Model()).(completedPomodoros := old(completedPomodoros) + 1,
        stats := old(Model()).stats.(sessionsToday := old(sessionsToday) + 1,
                                     sessionsWeek := old(sessionsWeek) + 1,
                                     sessionsMonth := old(sessionsMonth) + 1))
    {
      completedPomodoros := completedPomodoros + 1;
      sessionsToday := sessionsToday + 1;
      sessionsWeek := sessionsWeek + 1;
      sessionsMonth := sessionsMonth + 1;
    }

    method UpdateHeatmapForToday(now: int)
      modifies this
      ensures Model() == Pomodoro.UpdateHeatmapForToday(old(Model()), DayOf(now))
    {
      var today := DayOf(now);
      if today !in dailySessionCounts {
        dailySessionCounts := dailySessionCounts[today := 0];
      }
      dailySessionCounts := dailySessionCounts[today := dailySessionCounts[today] + 1];
      ghost var recorded := Model();
      ghost var counts := SessionCounts.RecordSession(old(dailySessionCounts), today);
      assert dailySessionCounts == counts;
      GenerateHeatmap(now);
      assert Model() == recorded.(heatmap := Pomodoro.GenerateHeatmap(counts, today));
      assert recorded.(heatmap := Pomodoro.GenerateHeatmap(counts, today)) ==
        old(Model()).(heatmap := Pomodoro.GenerateHeatmap(counts, today));
    }

    method GenerateHeatmap(now: int)
      modifies this
      ensures Model() == old(Model()).(heatmap := Pomodoro.GenerateHeatmap(old(dailySessionCounts), DayOf(now)))
    {
      var weeks, months := BuildHeatmap(dailySessionCounts, DayOf(now));
      assert Pomodoro.GenerateHeatmap(dailySessionCounts, DayOf(now)) == HeatmapView(dailySessionCounts, weeks, months);
      ShowHeatmap(weeks, months);
    }

    /** Replaces the displayed weeks and month labels. */
    method ShowHeatmap(weeks: seq<HeatmapWeek>, months: seq<HeatmapMonth>)
      modifies this
      ensures Model() == old(Model()).(heatmap := HeatmapView(old(dailySessionCounts), weeks, months))
    {
      heatmapWeeks := weeks;
      heatmapMonths := months;
    }

    // ---- settings ----

    method SetWorkSessionMinutes(value: int)
      modifies this
      ensures Model() == Pomodoro.SetWorkSessionMinutes(old(Model()), value)
    {
      if value != workSessionMinutes {
        workSessionMinutes := value;
        OnWorkSessionMinutesChanged();
      }
    }

    method OnWorkSessionMinutesChanged()
      modifies this
      ensures !old(isRunning) && IsWorkState(old(currentState)) ==>
        Model() == old(Model()).(timeRemaining := workSessionMinutes * SecondsPerMinute)
      ensures !(!old(isRunning) && IsWorkState(old(currentState))) ==> Model() == old(Model())
    {
      if !isRunning && (currentState == Work || currentState == LongWork) {
        timeRemaining := workSessionMinutes * SecondsPerMinute;
      }
    }

    method SetShortBreakMinutes(value: int)
      modifies this
      ensures Model() == Pomodoro.SetShortBreakMinutes(old(Model()), value)
    {
      if value != shortBreakMinutes {
        shortBreakMinutes := value;
        OnShortBreakMinutesChanged();
      }
    }

    method OnShortBreakMinutesChanged()
      modifies this
      ensures !old(isRunning) && old(currentState) == ShortBreak ==>
        Model() == old(Model()).(timeRemaining := shortBreakMinutes * SecondsPerMinute)
      ensures !(!old(isRunning) && old(currentState) == ShortBreak) ==> Model() == old(Model())
    {
      if !isRunning && currentState == ShortBreak {
        timeRemaining := shortBreakMinutes * SecondsPerMinute;
      }
    }

    method SetLongBreakMinutes(value: int)
      modifies this
      ensures Model() == Pomodoro.SetLongBreakMinutes(old(Model()), value)
    {
      if value != longBreakMinutes {
        longBreakMinutes := value;
        OnLongBreakMinutesChanged();
      }
    }

    method OnLongBreakMinutesChanged()
      modifies this
      ensures !old(isRunning) && old(currentState) == LongBreak ==>
        Model() == old(Model()).(timeRemaining := longBreakMinutes * SecondsPerMinute)
      ensures !(!old(isRunning) && old(currentState) == LongBreak) ==> Model() == old(Model())
    {
      if !isRunning && currentState == LongBreak {
        timeRemaining := longBreakMinutes * SecondsPerMinute;
      }
    }
  }
}
