# ProductivityCake core in Dafny

ProductivityCake is a desktop productivity app with two halves. This project models the core of both.

The first half is a Pomodoro timer. It is a state machine over four session kinds:
- Work and LongWork;
- ShortBreak and LongBreak.

Commands start, pause, stop, reset, switch, skip and adjust the timer. A one-second tick counts the session down. When a Work session expires it counts one pomodoro. After work comes a break, and the fourth pomodoro of a round is followed by the long break. The timer also keeps:
- daily statistics;
- a consecutive-day streak;
- a per-day session dictionary, from which a 53-week contribution heatmap with month labels is drawn.

The second half manages tasks and projects:
- a JSON-backed task store;
- a project table and a category table;
- the project list screen, with active, archived and displayed views;
- the project board, with status columns, a task form, tags and completion times;
- a category drop-down that adds categories without case-insensitive duplicates;
- the computed counters of a project.

How the model is laid out:
- The clock is a parameter `now`, in whole seconds. `now / 86400` is the day number that DateTime.Today stands for.
- The timer's commands are functions in `Pomodoro` from the state before to the state after. The class `TimerViewModels.TimerViewModel` performs the same steps on mutable fields. Each method that has a function of the same name in `Pomodoro` is proved to reach the state that function computes. The others (LoadTodayStatistics, CountSessions, ShowHeatmap and the three On…MinutesChanged handlers) state the fields they set and that nothing else changes.
- Each JSON file is a value `JsonFile` held by its store: missing, blank, `null`, malformed, or a list. Every store operation loads the file, changes the list, and writes it back whole.
- The view models are classes whose fields are the observable properties. Their collections are sequences.

## Model

| member | source | states |
|---|---|---|
| Calendar.DayOf | ProductivityCake/ViewModels/TimerViewModel.cs:574 | DateTime.Today of an instant: the day whose 86400 seconds contain it |
| Calendar.DayOfWeek | ProductivityCake/ViewModels/TimerViewModel.cs:670-673 | the weekday is in 0..6 and advances with the day number modulo 7 |
| Calendar.DayOfWeekPred | ProductivityCake/ViewModels/TimerViewModel.cs:670-673 | stepping back one day from a non-Sunday lowers the weekday by one, which is why the alignment loop ends |
| Calendar.SundayOnOrBefore | ProductivityCake/ViewModels/TimerViewModel.cs:667-673 | the latest Sunday at most 6 days before the day |
| Calendar.YearDay | ProductivityCake/ViewModels/TimerViewModel.cs:747 | the day of the year, 0 to 365, and whether the year is a leap year, by the 400-, 100-, 4- and 1-year blocks with the last block of each kind clamped |
| Calendar.MonthFrom | ProductivityCake/ViewModels/TimerViewModel.cs:747 | the month whose start is the latest one at or before the day of the year |
| Calendar.MonthOf | ProductivityCake/ViewModels/TimerViewModel.cs:747 | the month of a day number, 1 to 12 |
| Calendar.MonthOfLeapDay | ProductivityCake/ViewModels/TimerViewModel.cs:747 | 0004-02-29 is in February |
| Calendar.MonthOfCenturyYear | ProductivityCake/ViewModels/TimerViewModel.cs:747 | 0100 is not a leap year: its day 59 is 1 March |
| Calendar.MonthOfFourHundredthYear | ProductivityCake/ViewModels/TimerViewModel.cs:747 | 0400 is a leap year: its day 59 is 29 February |
| Heatmap.GetHeatmapColor | ProductivityCake/ViewModels/TimerViewModel.cs:780-790 | the five buckets, both directions: grey iff 0, lightest iff 1, light iff 2-3, medium iff 4-5, bright for 6 or more |
| Heatmap.ColorMonotone | ProductivityCake/ViewModels/TimerViewModel.cs:780-790 | more sessions never give a paler colour |
| Heatmap.GridStart | ProductivityCake/ViewModels/TimerViewModel.cs:667-673 | the grid starts on a Sunday between 370 and 364 days before today |
| Heatmap.HeatmapWeeksFor | ProductivityCake/ViewModels/TimerViewModel.cs:675-731 | exactly 53 weeks, week w being the 7 cells from the grid's first Sunday plus 7·w days |
| Heatmap.HeatmapDates | ProductivityCake/ViewModels/TimerViewModel.cs:667-731 | 7 consecutive dates per week from a Sunday between 370 and 364 days back, with today in the last week |
| Heatmap.HeatmapCells | ProductivityCake/ViewModels/TimerViewModel.cs:700-728 | days after today have count 0, grey and no tooltip; other days carry their dictionary count, its colour and a tooltip |
| Heatmap.WeekFor | ProductivityCake/ViewModels/TimerViewModel.cs:700-728 | a week is 7 cells for the 7 days from its Sunday |
| Heatmap.FirstDayOnOrBefore | ProductivityCake/ViewModels/TimerViewModel.cs:744 | FirstOrDefault: none iff no day is on or before today, otherwise the first such day |
| Heatmap.FirstDayIsHead | ProductivityCake/ViewModels/TimerViewModel.cs:744 | a week whose first day is on or before today is labelled by that day |
| Heatmap.Repeat | ProductivityCake/ViewModels/TimerViewModel.cs:757 | a month name repeated for each week of its label |
| Heatmap.RunLengths | ProductivityCake/ViewModels/TimerViewModel.cs:739-777 | the run-length code of the week months is canonical: labels at least a week wide and neighbouring months different |
| Heatmap.ConsCanonical | ProductivityCake/ViewModels/TimerViewModel.cs:750-760 | a whole-week label for a new month in front of a canonical row keeps it canonical |
| Heatmap.CanonicalTail | ProductivityCake/ViewModels/TimerViewModel.cs:750-760 | the rest of a canonical row is canonical and its first two labels name different months |
| Heatmap.PeelWeek | ProductivityCake/ViewModels/TimerViewModel.cs:757 | a label more than a week wide, shortened by a week, codes the remaining weeks canonically |
| Heatmap.ExpandRunLengths | ProductivityCake/ViewModels/TimerViewModel.cs:739-777 | decoding the labels gives back the month of every week |
| Heatmap.CanonicalIsRunLengths | ProductivityCake/ViewModels/TimerViewModel.cs:739-777 | a canonical label row that decodes to the week months is their run-length code, so the labels are determined by the weeks |
| Heatmap.TotalWidthOfCanonical | ProductivityCake/ViewModels/TimerViewModel.cs:755-776 | label widths add up to 15 pixels per week |
| Heatmap.MonthLabels | ProductivityCake/ViewModels/TimerViewModel.cs:735-777 | the label scan emits a canonical row that decodes to the week months and whose widths total 15 per week |
| Heatmap.ScanMonths | ProductivityCake/ViewModels/TimerViewModel.cs:739-766 | the label loop: the closed labels are canonical and code the weeks before the open run, which is one month ending at the last week |
| Heatmap.WeekMonth | ProductivityCake/ViewModels/TimerViewModel.cs:744-747 | the month of a week is the month of its first day |
| Heatmap.ScanWeek | ProductivityCake/ViewModels/TimerViewModel.cs:747-765 | one loop step: a new month closes the open run and opens one at this week, the same month extends it; the scan invariant holds one week further |
| Heatmap.CloseLabel | ProductivityCake/ViewModels/TimerViewModel.cs:750-760 | closing the open month extends a row coding the earlier weeks to one coding the weeks so far |
| Heatmap.ExpandSnoc | ProductivityCake/ViewModels/TimerViewModel.cs:755-759 | appending a label appends its weeks |
| Heatmap.BuildHeatmap | ProductivityCake/ViewModels/TimerViewModel.cs:662-778 | the aligning and week-building loops produce the 53-week grid of HeatmapWeeksFor, and the labels are its run-length code, 53 × 15 pixels wide |
| Streaks.UpdateStreak | ProductivityCake/ViewModels/TimerViewModel.cs:596-628 | first session gives 1, same day no change, the next day +1, a gap restarts at 1; the longest never decreases and follows the current; current ≤ longest is kept |
| Streaks.UpdateOnDays | ProductivityCake/ViewModels/TimerViewModel.cs:596-628 | sessions on a list of days leave the last day as the last session date, never lower the longest streak and keep current ≤ longest |
| Streaks.Raise | ProductivityCake/ViewModels/TimerViewModel.cs:624-627 | the longest becomes at least the current and changes only to it |
| Streaks.UpdateStreakIdempotent | ProductivityCake/ViewModels/TimerViewModel.cs:600-613 | updating twice on one day is updating once |
| Streaks.DaysFrom | ProductivityCake/ViewModels/TimerViewModel.cs:614-619 | n consecutive day numbers |
| Streaks.ConsecutiveDaysExtend | ProductivityCake/ViewModels/TimerViewModel.cs:614-627 | sessions on n consecutive days after the last one lengthen the streak by exactly n and keep current ≤ longest |
| Streaks.GapResets | ProductivityCake/ViewModels/TimerViewModel.cs:620-625 | a skipped day restarts the streak at 1 |
| SessionCounts.RecordSession | ProductivityCake/ViewModels/TimerViewModel.cs:796-801 | today's count rises by one (from 0 when absent) and every other day is unchanged |
| SessionCounts.TotalCountSplit | ProductivityCake/ViewModels/TimerViewModel.cs:129 | the dictionary total splits at any key |
| SessionCounts.RecordSessionTotal | ProductivityCake/ViewModels/TimerViewModel.cs:796-801 | recording adds exactly one to the dictionary total and keeps every entry positive |
| Pomodoro.WorkOrBreak | ProductivityCake/ViewModels/TimerViewModel.cs:181-182 | every state is a work state or a break state, never both |
| Pomodoro.NominalDuration | ProductivityCake/ViewModels/TimerViewModel.cs:264-271 | the state's full length; LongWork takes the work length |
| Pomodoro.BreakAfterWork | ProductivityCake/ViewModels/TimerViewModel.cs:392-399 | always a break; the long one iff the state is Work and the positive count is a multiple of 4 |
| Pomodoro.NextSession | ProductivityCake/ViewModels/TimerViewModel.cs:329-345 | a break after work, Work after a break |
| Pomodoro.GenerateHeatmap | ProductivityCake/ViewModels/TimerViewModel.cs:662-778 | 53 weeks, and month labels that are canonical and decode to the week months |
| Pomodoro.Initial | ProductivityCake/ViewModels/TimerViewModel.cs:134-141 | a new timer is stopped in Work at 25 minutes with no pomodoros and no streak, and satisfies the invariant |
| Pomodoro.CheckAndResetDailyStats | ProductivityCake/ViewModels/TimerViewModel.cs:572-580 | on a new day only the two daily totals reset; the session counters never do; the invariant is kept |
| Pomodoro.TrackSessionTime | ProductivityCake/ViewModels/TimerViewModel.cs:582-594 | the time goes to the work total in either work state and to the break total otherwise, then the streak is updated |
| Pomodoro.StartTimer | ProductivityCake/ViewModels/TimerViewModel.cs:235-245 | no-op when running; otherwise running, started now, ending after the remaining time, with the rollover applied after |
| Pomodoro.PauseTimer | ProductivityCake/ViewModels/TimerViewModel.cs:247-259 | a running timer credits now − start to the total of its state's kind and updates the streak; always ends stopped; paused stays unchanged |
| Pomodoro.StopTimer | ProductivityCake/ViewModels/TimerViewModel.cs:261-272 | pause, then the full length of the current state |
| Pomodoro.ResetTimer | ProductivityCake/ViewModels/TimerViewModel.cs:275-286 | stopped at the full length of the current state |
| Pomodoro.ResetIsStop | ProductivityCake/ViewModels/TimerViewModel.cs:261-286 | reset and stop have the same effect |
| Pomodoro.SwitchTo | ProductivityCake/ViewModels/TimerViewModel.cs:191-212 | stopped in the target state at its full length; otherwise only the pause's effect |
| Pomodoro.SwitchToIdempotent | ProductivityCake/ViewModels/TimerViewModel.cs:191-212 | switching twice to a state is switching once |
| Pomodoro.ToggleTimer | ProductivityCake/ViewModels/TimerViewModel.cs:223-233 | flips running; the state, remaining time and count stay |
| Pomodoro.ToggleTwice | ProductivityCake/ViewModels/TimerViewModel.cs:223-259 | start then pause at one instant credits nothing and only records the streak |
| Pomodoro.StartTestTimer | ProductivityCake/ViewModels/TimerViewModel.cs:215-220 | running with 5 seconds left, ending 5 seconds from now |
| Pomodoro.AddTime | ProductivityCake/ViewModels/TimerViewModel.cs:289-303 | exactly 5 minutes more; running as before; a running timer restarts from now |
| Pomodoro.SubtractTime | ProductivityCake/ViewModels/TimerViewModel.cs:306-321 | 5 minutes less when that stays positive, else exactly 1 minute; always positive; running as before |
| Pomodoro.AddThenSubtract | ProductivityCake/ViewModels/TimerViewModel.cs:289-321 | subtracting after adding gives back any positive remaining time, and a paused timer unchanged |
| Pomodoro.SkipSession | ProductivityCake/ViewModels/TimerViewModel.cs:324-346 | the count is unchanged, the next state follows the %4 rule, and it ends stopped at that state's full length |
| Pomodoro.UpdateHeatmapForToday | ProductivityCake/ViewModels/TimerViewModel.cs:792-805 | today's count rises by one and the heatmap is rebuilt from the new dictionary |
| Pomodoro.CountPomodoro | ProductivityCake/ViewModels/TimerViewModel.cs:384-388 | counting a pomodoro keeps the invariant: the counters equal the dictionary total and every entry is positive |
| Pomodoro.TimerCallback | ProductivityCake/ViewModels/TimerViewModel.cs:371-374 | before expiry only the remaining time changes, to the time left until the end instant |
| Pomodoro.Expire | ProductivityCake/ViewModels/TimerViewModel.cs:378-409 | after a work session the timer runs on into the break the new count chooses, and Work increments the count; after a break it returns to a stopped Work; the remaining time is the new state's nominal duration and the settings are kept |
| Pomodoro.ExpiryCounts | ProductivityCake/ViewModels/TimerViewModel.cs:375-389 | on expiry the count, the three session counters and today's cell rise by 1 iff the state was Work; other days, the settings and the pause's streak are kept |
| Pomodoro.WorkExpiry | ProductivityCake/ViewModels/TimerViewModel.cs:379-401 | an expired work session moves on to its break by the %4 rule, which runs at once for its full length |
| Pomodoro.BreakExpiry | ProductivityCake/ViewModels/TimerViewModel.cs:402-406 | an expired break returns to Work, stopped at the full work length, counting nothing |
| Pomodoro.WorkExpiryHeatmap | ProductivityCake/ViewModels/TimerViewModel.cs:792-805 | after a counted pomodoro the heatmap is the one built from the new dictionary |
| Pomodoro.TimerCallbackKeepsValid | ProductivityCake/ViewModels/TimerViewModel.cs:371-412 | the tick keeps the invariant: counters equal the dictionary total, entries positive |
| Pomodoro.LongBreakEveryFourth | ProductivityCake/ViewModels/TimerViewModel.cs:380-400 | an expiring Work session leads to the long break iff it is the fourth of its round |
| Pomodoro.FourthSession | ProductivityCake/ViewModels/TimerViewModel.cs:392 | the count after the fourth session of a round is a multiple of 4 |
| Pomodoro.SetWorkSessionMinutes | ProductivityCake/ViewModels/TimerViewModel.cs:29-36 | a changed work length is shown on a stopped timer in either work state; otherwise the remaining time stays |
| Pomodoro.SetShortBreakMinutes | ProductivityCake/ViewModels/TimerViewModel.cs:38-45 | a changed short-break length is shown on a stopped ShortBreak timer |
| Pomodoro.SetLongBreakMinutes | ProductivityCake/ViewModels/TimerViewModel.cs:47-54 | a changed long-break length is shown on a stopped LongBreak timer |
| Pomodoro.SettingsKeepIdleTimerFull | ProductivityCake/ViewModels/TimerViewModel.cs:29-54 | a stopped timer showing its full length keeps showing it after any length change |
| TimerDisplay.StateDisplayName | ProductivityCake/ViewModels/TimerViewModel.cs:145-152 | "Work Session" iff a work state, "Short Break" and "Long Break" iff those states |
| TimerDisplay.CurrentSessionNumber | ProductivityCake/ViewModels/TimerViewModel.cs:159 | the session's position 1..4, congruent to the count plus one |
| TimerDisplay.CurrentSessionDisplay | ProductivityCake/ViewModels/TimerViewModel.cs:154-162 | "n/4 Sessions", 12 characters |
| TimerDisplay.FourOfFourLeadsToLongBreak | ProductivityCake/ViewModels/TimerViewModel.cs:393-400 | the long break follows exactly the session that expires while "4/4" is shown |
| TimerDisplay.TruncDiv | ProductivityCake/ViewModels/TimerViewModel.cs:143 | C# integer division, truncating toward zero |
| TimerDisplay.TruncRem | ProductivityCake/ViewModels/TimerViewModel.cs:143 | C# remainder, with the dividend's sign |
| TimerDisplay.FormatShortSpan | ProductivityCake/ViewModels/TimerViewModel.cs:646-652 | under an hour: "MM:SS", from which the span reads back exactly |
| TimerDisplay.FormatLongSpan | ProductivityCake/ViewModels/TimerViewModel.cs:653-659 | an hour or more: "Hh MMm", whose hours and minutes read back to the span's whole minutes |
| TimerDisplay.HoursMinutesText | ProductivityCake/ViewModels/TimerViewModel.cs:656-658 | the "Hh MMm" layout and what it reads back as |
| TimerDisplay.HoursMinutesLayout | ProductivityCake/ViewModels/TimerViewModel.cs:656-658 | where the hours, "h ", the two minute digits and "m" sit in the text |
| TimerDisplay.LongSpanOf | ProductivityCake/ViewModels/TimerViewModel.cs:656-658 | any hour digits and two minute digits lay out as "Hh MMm" and read back as those numbers |
| TimerDisplay.HoursMinutesSeconds | ProductivityCake/ViewModels/TimerViewModel.cs:655-656 | hours, minutes past the hour and seconds past the minute make up the span |
| TimerDisplay.MinutesSeconds | ProductivityCake/ViewModels/TimerViewModel.cs:143 | whole minutes and seconds, each D2, for a non-negative span; a span between -60 and 0 seconds shows "00:-" and its seconds, since both parts truncate toward zero |
| TimerDisplay.FormatTimeSpan | ProductivityCake/ViewModels/TimerViewModel.cs:646-660 | under an hour "MM:SS"; from an hour on, the whole hours, "h ", the minutes past the hour in D2 and "m" |
| TimerViewModels.TimerViewModel.constructor | ProductivityCake/ViewModels/TimerViewModel.cs:134-141 | the fields reach Pomodoro.Initial |
| TimerViewModels.TimerViewModel.LoadTodayStatistics | ProductivityCake/ViewModels/TimerViewModel.cs:562-570 | the daily totals and both streak lengths are zeroed, nothing else changes |
| TimerViewModels.TimerViewModel.CheckAndResetDailyStats | ProductivityCake/ViewModels/TimerViewModel.cs:572-580 | the fields reach Pomodoro.CheckAndResetDailyStats |
| TimerViewModels.TimerViewModel.TrackSessionTime | ProductivityCake/ViewModels/TimerViewModel.cs:582-594 | the fields reach Pomodoro.TrackSessionTime |
| TimerViewModels.TimerViewModel.UpdateStreak | ProductivityCake/ViewModels/TimerViewModel.cs:596-628 | the streak fields reach Streaks.UpdateStreak, nothing else changes |
| TimerViewModels.TimerViewModel.StartTimer | ProductivityCake/ViewModels/TimerViewModel.cs:235-245 | the fields reach Pomodoro.StartTimer |
| TimerViewModels.TimerViewModel.PauseTimer | ProductivityCake/ViewModels/TimerViewModel.cs:247-259 | the fields reach Pomodoro.PauseTimer |
| TimerViewModels.TimerViewModel.StopTimer | ProductivityCake/ViewModels/TimerViewModel.cs:261-272 | the fields reach Pomodoro.StopTimer |
| TimerViewModels.TimerViewModel.ResetTimer | ProductivityCake/ViewModels/TimerViewModel.cs:275-286 | the fields reach Pomodoro.ResetTimer |
| TimerViewModels.TimerViewModel.SwitchToWork | ProductivityCake/ViewModels/TimerViewModel.cs:191-196 | the fields reach Pomodoro.SwitchTo with Work |
| TimerViewModels.TimerViewModel.SwitchToShortBreak | ProductivityCake/ViewModels/TimerViewModel.cs:199-204 | the fields reach Pomodoro.SwitchTo with ShortBreak |
| TimerViewModels.TimerViewModel.SwitchToLongBreak | ProductivityCake/ViewModels/TimerViewModel.cs:207-212 | the fields reach Pomodoro.SwitchTo with LongBreak |
| TimerViewModels.TimerViewModel.StartTestTimer | ProductivityCake/ViewModels/TimerViewModel.cs:215-220 | the fields reach Pomodoro.StartTestTimer |
| TimerViewModels.TimerViewModel.ToggleTimer | ProductivityCake/ViewModels/TimerViewModel.cs:223-233 | the fields reach Pomodoro.ToggleTimer |
| TimerViewModels.TimerViewModel.AddTime | ProductivityCake/ViewModels/TimerViewModel.cs:289-303 | the fields reach Pomodoro.AddTime |
| TimerViewModels.TimerViewModel.SubtractTime | ProductivityCake/ViewModels/TimerViewModel.cs:306-321 | the fields reach Pomodoro.SubtractTime |
| TimerViewModels.TimerViewModel.SkipSession | ProductivityCake/ViewModels/TimerViewModel.cs:324-346 | the fields reach Pomodoro.SkipSession |
| TimerViewModels.TimerViewModel.TimerCallback | ProductivityCake/ViewModels/TimerViewModel.cs:371-412 | the fields reach Pomodoro.TimerCallback |
| TimerViewModels.TimerViewModel.AfterExpiry | ProductivityCake/ViewModels/TimerViewModel.cs:378-409 | the fields reach Pomodoro.Expire |
| TimerViewModels.TimerViewModel.CountPomodoro | ProductivityCake/ViewModels/TimerViewModel.cs:384-388 | the fields reach Pomodoro.CountPomodoro |
| TimerViewModels.TimerViewModel.CountSessions | ProductivityCake/ViewModels/TimerViewModel.cs:384-387 | the pomodoro count and the three session counters rise by one, nothing else changes |
| TimerViewModels.TimerViewModel.UpdateHeatmapForToday | ProductivityCake/ViewModels/TimerViewModel.cs:792-805 | the fields reach Pomodoro.UpdateHeatmapForToday |
| TimerViewModels.TimerViewModel.GenerateHeatmap | ProductivityCake/ViewModels/TimerViewModel.cs:662-778 | only the heatmap changes, to Pomodoro.GenerateHeatmap of the dictionary |
| TimerViewModels.TimerViewModel.ShowHeatmap | ProductivityCake/ViewModels/TimerViewModel.cs:664-665 | the displayed weeks and month labels are replaced and nothing else in the timer state changes |
| TimerViewModels.TimerViewModel.SetWorkSessionMinutes | ProductivityCake/ViewModels/TimerViewModel.cs:29-36 | the fields reach Pomodoro.SetWorkSessionMinutes |
| TimerViewModels.TimerViewModel.OnWorkSessionMinutesChanged | ProductivityCake/ViewModels/TimerViewModel.cs:29-36 | a stopped work timer shows the work length, otherwise nothing changes |
| TimerViewModels.TimerViewModel.SetShortBreakMinutes | ProductivityCake/ViewModels/TimerViewModel.cs:38-45 | the fields reach Pomodoro.SetShortBreakMinutes |
| TimerViewModels.TimerViewModel.OnShortBreakMinutesChanged | ProductivityCake/ViewModels/TimerViewModel.cs:38-45 | a stopped ShortBreak timer shows the short-break length |
| TimerViewModels.TimerViewModel.SetLongBreakMinutes | ProductivityCake/ViewModels/TimerViewModel.cs:47-54 | the fields reach Pomodoro.SetLongBreakMinutes |
| TimerViewModels.TimerViewModel.OnLongBreakMinutesChanged | ProductivityCake/ViewModels/TimerViewModel.cs:47-54 | a stopped LongBreak timer shows the long-break length |
| Text.Trim | ProductivityCake/ViewModels/ProjectListViewModel.cs:142 | the infix between the two cuts: white space all around it, none at either of its ends, and empty iff the text is blank |
| Text.LeadingEnd | ProductivityCake/ViewModels/ProjectListViewModel.cs:142 | TrimStart's cut: everything before it is white space and the character at it is not |
| Text.TrailingStart | ProductivityCake/ViewModels/ProjectListViewModel.cs:142 | TrimEnd's cut: everything from it on is white space and the character before it is not |
| Text.Pad2 | ProductivityCake/ViewModels/TimerViewModel.cs:143 | the "00" format: at least two digits, exactly two below 100, reading back as the number |
| Text.TrimOrNull | ProductivityCake/ViewModels/ProjectListViewModel.cs:143 | `?.Trim()`: null stays null, text is trimmed |
| Text.TrimIdempotent | ProductivityCake/ViewModels/ProjectDetailsViewModel.cs:198 | trimming twice is trimming once |
| Text.EqualsIgnoreCaseIsFoldEquality | ProductivityCake/Controls/CategoryComboBox.axaml.cs:248 | OrdinalIgnoreCase equality is the equality of the case-folded strings |
| Text.EqualsIgnoreCase | ProductivityCake/Controls/CategoryComboBox.axaml.cs:248 | equal texts compare equal; texts that compare equal have the same length |
| Text.IsWhiteSpace | ProductivityCake/ViewModels/ProjectListViewModel.cs:159 | on ASCII exactly space and tab through carriage return; never a digit or a Latin letter |
| Text.IsBlank | ProductivityCake/ViewModels/ProjectListViewModel.cs:159 | blank iff the leading white space runs to the end |
| Text.IntToString | ProductivityCake/ViewModels/TimerViewModel.cs:658 | a non-negative number is digits that parse back to it; a negative one is "-" then the digits of its magnitude |
| Text.FormatD2 | ProductivityCake/ViewModels/TimerViewModel.cs:143 | D2 format: at least two digits that parse back to a non-negative number; "-" then at least two digits of the magnitude for a negative one |
| Seqs.Filter | ProductivityCake/ViewModels/ProjectListViewModel.cs:88 | Where: only satisfying elements, and every satisfying element |
| Seqs.FilterSnoc | ProductivityCake/ViewModels/ProjectListViewModel.cs:88-91 | one more loop step appends the element exactly when it satisfies the test |
| Seqs.FilterMultiset | ProductivityCake/ViewModels/ProjectListViewModel.cs:88-98 | Where keeps each satisfying element as often as it occurs and drops the rest |
| Seqs.FilterPartition | ProductivityCake/ViewModels/ProjectListViewModel.cs:88-98 | a test and its negation split the list as a multiset and by length |
| Seqs.Count | ProductivityCake/Models/Project.cs:30 | at most the length, and zero iff no element satisfies the test |
| Seqs.CountIsFilterLength | ProductivityCake/Models/Project.cs:30-36 | Count(p) equals the length of Where(p) |
| Seqs.FirstIndex | ProductivityCake/Services/JsonDataService.cs:104 | FindIndex: −1 iff no match, else the first match |
| Seqs.First | ProductivityCake/Services/JsonDataService.cs:68 | FirstOrDefault: none iff no match, else the first match |
| Seqs.FirstIndexAfterReplace | ProductivityCake/Services/JsonDataService.cs:104-108 | replacing the found element by a matching one keeps the index |
| Seqs.MaxKey | ProductivityCake/Services/JsonDataService.cs:80 | Max: an upper bound of every key that some element attains |
| Seqs.NextId | ProductivityCake/Services/JsonDataService.cs:80 | one more than the largest id (attained), or 1 when empty, so above every id |
| Seqs.RemoveAt | ProductivityCake/Services/JsonDataService.cs:134 | List.RemoveAt: one element gone, the prefix kept, the suffix shifted, the multiset minus that element |
| Models.BlankTodoItem | ProductivityCake/Models/TodoItem.cs:7-56 | the initialiser defaults: id 0, empty title, ToDo, incomplete, created now, one estimated pomodoro, no tags |
| Models.PersistedItem | ProductivityCake/Models/TodoItem.cs:48-55 | the [JsonIgnore] category and tags are dropped, everything else kept |
| Models.PersistedProject | ProductivityCake/Models/Project.cs:25-26 | the [JsonIgnore] tasks are dropped, everything else kept |
| Models.WithStatus | ProductivityCake/Models/Project.cs:30-36 | exactly the tasks of one status |
| Models.TodoTasksCount | ProductivityCake/Models/Project.cs:30 | the number of ToDo tasks, at most the total |
| Models.DoingTasksCount | ProductivityCake/Models/Project.cs:33 | the number of Doing tasks, at most the total |
| Models.DoneTasksCount | ProductivityCake/Models/Project.cs:36 | the number of Done tasks, at most the total |
| Models.StatusCountsSum | ProductivityCake/Models/Project.cs:30-39 | the three status counts sum to the length |
| Models.ProjectCountsSum | ProductivityCake/Models/Project.cs:30-39 | TodoTasksCount + DoingTasksCount + DoneTasksCount == TotalTasksCount |
| Models.RoundHalfEven | ProductivityCake/Models/Project.cs:44 | Math.Round: the nearest integer, the even one on a tie |
| Models.DivisionParts | ProductivityCake/Models/Project.cs:44 | the quotient-remainder facts behind the rounding |
| Models.CompletionPercentage | ProductivityCake/Models/Project.cs:43-45 | 0..100; 0 with no tasks or none done; 100 when all are done; within half a percent of 100·done/total |
| Models.PercentageBounds | ProductivityCake/Models/Project.cs:43-45 | a rounded share of at most the whole is at most 100, 0 for none, 100 for all |
| Models.ProductCancel | ProductivityCake/Models/Project.cs:44 | cancelling a positive factor keeps a strict order |
| Models.LastUpdated | ProductivityCake/Models/Project.cs:48-50 | null iff no tasks; otherwise the largest `CompletedAt ?? CreatedAt`, attained by a task |
| JsonData.LoadItems | ProductivityCake/Services/JsonDataService.cs:52-63 | missing, blank and `null` read as the empty list; only malformed text fails |
| JsonData.AllItems | ProductivityCake/Services/JsonDataService.cs:34-50 | the loaded list, or empty when loading threw |
| JsonData.PersistAll | ProductivityCake/Services/JsonDataService.cs:148-161 | the serialiser's view: each item without its ignored properties |
| JsonData.IndexOfItem | ProductivityCake/Services/JsonDataService.cs:104 | the first position with the id, or −1 iff none |
| JsonData.ItemById | ProductivityCake/Services/JsonDataService.cs:65-69 | the first item with the id, or null iff none |
| JsonData.AssignId | ProductivityCake/Services/JsonDataService.cs:78-82 | id 0 becomes max + 1 (1 in an empty store), above every stored id; any other id is kept |
| JsonData.JsonDataService.constructor | ProductivityCake/Services/JsonDataService.cs:34-63 | the store holds the given file |
| JsonData.JsonDataService.GetAll | ProductivityCake/Services/JsonDataService.cs:34-50 | returns AllItems of the file |
| JsonData.JsonDataService.GetById | ProductivityCake/Services/JsonDataService.cs:65-69 | returns ItemById of the file |
| JsonData.JsonDataService.SaveChanges | ProductivityCake/Services/JsonDataService.cs:148-161 | the file becomes the serialised list |
| JsonData.JsonDataService.Create | ProductivityCake/Services/JsonDataService.cs:71-96 | malformed file: false, unchanged; otherwise the item with its assigned id is appended after the unchanged items |
| JsonData.JsonDataService.Update | ProductivityCake/Services/JsonDataService.cs:98-121 | false and unchanged for an unknown id; otherwise only the first item with the id is replaced |
| JsonData.JsonDataService.Delete | ProductivityCake/Services/JsonDataService.cs:123-146 | false and unchanged for an unknown id; otherwise the first item with the id is removed, the rest in order |
| JsonData.CreatedIsFound | ProductivityCake/Services/JsonDataService.cs:65-96 | after creating an item with id 0, GetById of its new id finds it |
| JsonData.UpdatedIsFound | ProductivityCake/Services/JsonDataService.cs:65-121 | after an update, GetById finds the new item |
| JsonData.DeleteRemovesOne | ProductivityCake/Services/JsonDataService.cs:123-146 | with unique ids, delete shortens the list by one and the id is gone |
| ProjectServices.IndexOfProject | ProductivityCake/Services/ProjectService.cs:87-92 | the first position with the id, or −1 iff none |
| ProjectServices.ProjectById | ProductivityCake/Services/ProjectService.cs:87-92 | the first project with the id; none (KeyNotFoundException) iff no project has it |
| ProjectServices.PersistProjects | ProductivityCake/Services/ProjectService.cs:51-71 | the serialiser's view: projects without tasks |
| ProjectServices.TasksOfProject | ProductivityCake/Services/ProjectService.cs:79-82 | exactly the tasks naming the project |
| ProjectServices.JoinTasks | ProductivityCake/Services/ProjectService.cs:73-85 | each project gets exactly its tasks and nothing else changes |
| ProjectServices.SetArchived | ProductivityCake/Services/ProjectService.cs:121-135 | only the project with the id gets the flag; nothing else changes |
| ProjectServices.SetArchivedKeepsIndex | ProductivityCake/Services/ProjectService.cs:121-135 | setting the flag keeps the project findable at the same place |
| ProjectServices.SetArchivedIdempotent | ProductivityCake/Services/ProjectService.cs:121-135 | archiving (or unarchiving) twice is once |
| ProjectServices.SetArchivedRestores | ProductivityCake/Services/ProjectService.cs:121-135 | unarchiving undoes archiving an active project |
| ProjectServices.ProjectService.constructor | ProductivityCake/Services/ProjectService.cs:32-49 | a readable list sets the counter to max id + 1 (1 when empty or `null`); otherwise empty with counter 1 |
| ProjectServices.ProjectService.SaveProjects | ProductivityCake/Services/ProjectService.cs:51-71 | the file becomes the serialised table |
| ProjectServices.ProjectService.GetAllProjects | ProductivityCake/Services/ProjectService.cs:73-85 | the loop gives each project exactly its tasks |
| ProjectServices.ProjectService.GetProjectById | ProductivityCake/Services/ProjectService.cs:87-92 | returns ProjectById of the table |
| ProjectServices.ProjectService.CreateProject | ProductivityCake/Services/ProjectService.cs:94-102 | the counter is the new id, above every id in the table; the counter moves on; the project is appended and saved |
| ProjectServices.ProjectService.UpdateProject | ProductivityCake/Services/ProjectService.cs:104-111 | an unknown id fails with no change; otherwise the project at its position is replaced and the length kept |
| ProjectServices.ProjectService.DeleteProject | ProductivityCake/Services/ProjectService.cs:113-119 | an unknown id fails with no change; otherwise that project is removed, the rest in order |
| ProjectServices.ProjectService.ArchiveProject | ProductivityCake/Services/ProjectService.cs:121-127 | an unknown id fails with no change; otherwise SetArchived true |
| ProjectServices.ProjectService.UnarchiveProject | ProductivityCake/Services/ProjectService.cs:129-135 | an unknown id fails with no change; otherwise SetArchived false |
| ProjectServices.ProjectService.SetFlag | ProductivityCake/Services/ProjectService.cs:121-135 | the lookup, flag and save shared by archive and unarchive |
| CategoryServices.IndexOfCategory | ProductivityCake/Services/CategoryService.cs:72-75 | the first position with the id, or −1 iff none |
| CategoryServices.CategoryById | ProductivityCake/Services/CategoryService.cs:72-75 | the first category with the id, or null iff none |
| CategoryServices.DefaultCategories | ProductivityCake/Services/CategoryService.cs:94-100 | Work, Personal and Urgent with ids 1, 2, 3 |
| CategoryServices.Renamed | ProductivityCake/Services/CategoryService.cs:49-59 | only the name and colour of the category with the id change; all ids stay |
| CategoryServices.RenamedIsFound | ProductivityCake/Services/CategoryService.cs:49-75 | after an update the id finds the new name and colour |
| CategoryServices.CategoryService.constructor | ProductivityCake/Services/CategoryService.cs:77-109 | the table is loaded as LoadCategories states |
| CategoryServices.CategoryService.LoadCategories | ProductivityCake/Services/CategoryService.cs:77-109 | no file seeds the defaults with counter 4 and saves; a list sets the counter only when non-empty; otherwise empty, counter kept |
| CategoryServices.CategoryService.SaveCategories | ProductivityCake/Services/CategoryService.cs:111-122 | the file becomes the table |
| CategoryServices.CategoryService.GetAllCategories | ProductivityCake/Services/CategoryService.cs:24-31 | a non-empty table, counter and file are kept; an empty one is reloaded: a missing file gives the three defaults, counter 4, written out; a stored list becomes the table with counter max + 1 (kept when the list is empty); a null, blank or malformed file leaves the table empty and counter and file unchanged; the result is a value copy of the table |
| CategoryServices.CategoryService.GetCategoryById | ProductivityCake/Services/CategoryService.cs:72-75 | null iff no category has the id, else one with it |
| CategoryServices.CategoryService.CreateCategory | ProductivityCake/Services/CategoryService.cs:33-47 | the counter is the new id, above every id; the counter moves on; appended and saved |
| CategoryServices.CategoryService.UpdateCategory | ProductivityCake/Services/CategoryService.cs:49-59 | no-op for an unknown id; otherwise Renamed and saved |
| CategoryServices.CategoryService.DeleteCategory | ProductivityCake/Services/CategoryService.cs:61-70 | no-op for an unknown id; otherwise the first match is removed and saved |
| ProjectLists.ActiveOf | ProductivityCake/ViewModels/ProjectListViewModel.cs:88 | exactly the non-archived projects |
| ProjectLists.ArchivedOf | ProductivityCake/ViewModels/ProjectListViewModel.cs:95 | exactly the archived projects |
| ProjectLists.ActiveArchivedPartition | ProductivityCake/ViewModels/ProjectListViewModel.cs:86-98 | the two lists partition the projects (multiset and length) |
| ProjectLists.DisplayedOf | ProductivityCake/ViewModels/ProjectListViewModel.cs:107-115 | exactly the projects whose archived flag equals the switch |
| ProjectLists.DisplayedViewsCover | ProductivityCake/ViewModels/ProjectListViewModel.cs:107-115 | the two settings of the switch together show every project once |
| ProjectLists.CollectWhere | ProductivityCake/ViewModels/ProjectListViewModel.cs:87-98 | the Clear/foreach/Add loop produces Where in order |
| ProjectLists.ProjectListViewModel.constructor | ProductivityCake/ViewModels/ProjectListViewModel.cs:49-57 | loads the projects with their tasks; the views agree with them; the service's projects, counter and file are left as they were |
| ProjectLists.ProjectListViewModel.LoadProjects | ProductivityCake/ViewModels/ProjectListViewModel.cs:63-82 | the projects are the service's, joined with their tasks, and the views are rebuilt; the service's file is not touched |
| ProjectLists.ProjectListViewModel.UpdateFilteredCollections | ProductivityCake/ViewModels/ProjectListViewModel.cs:84-105 | active, archived and displayed agree with the projects and the switch |
| ProjectLists.ProjectListViewModel.UpdateDisplayedProjects | ProductivityCake/ViewModels/ProjectListViewModel.cs:107-115 | displayed is the archived list when the switch is on, else the active list |
| ProjectLists.ProjectListViewModel.ToggleShowArchived | ProductivityCake/ViewModels/ProjectListViewModel.cs:241-246 | the switch flips and displayed shows the other partition; the lists, the add form and the delete confirmation are unchanged |
| ProjectLists.ProjectListViewModel.HasProjects | ProductivityCake/ViewModels/ProjectListViewModel.cs:29 | true iff there is a project, iff active plus archived is non-empty |
| ProjectLists.ProjectListViewModel.CanAddProject | ProductivityCake/ViewModels/ProjectListViewModel.cs:159 | true iff the trimmed name is non-empty |
| ProjectLists.ProjectListViewModel.OpenAddProjectDialog | ProductivityCake/ViewModels/ProjectListViewModel.cs:117-123 | an empty form, the dialog open, the lists unchanged |
| ProjectLists.ProjectListViewModel.CancelAddProject | ProductivityCake/ViewModels/ProjectListViewModel.cs:125-131 | an empty form, the dialog closed, the lists unchanged |
| ProjectLists.ProjectListViewModel.AddProject | ProductivityCake/ViewModels/ProjectListViewModel.cs:133-157 | a project with the trimmed name and description, the service's next id, active and without tasks, is appended; the counter steps by one and the list is saved; the form is cleared; the delete confirmation is unchanged |
| ProjectLists.ProjectListViewModel.ShowDeleteConfirmation | ProductivityCake/ViewModels/ProjectListViewModel.cs:180-185 | the project awaits confirmation |
| ProjectLists.ProjectListViewModel.CancelDelete | ProductivityCake/ViewModels/ProjectListViewModel.cs:187-192 | nothing awaits confirmation |
| ProjectLists.ProjectListViewModel.ConfirmDelete | ProductivityCake/ViewModels/ProjectListViewModel.cs:194-209 | with no project awaiting, nothing changes; otherwise the awaiting project is removed at its index, the list saved and the confirmation closed; an unknown id leaves the service's list and file and the confirmation as they were; the counter, the lists and the add form never change |
| ProjectLists.ToggleShowArchivedTwice | ProductivityCake/ViewModels/ProjectListViewModel.cs:241-246 | toggling twice restores the switch and the displayed list and leaves the project lists unchanged |
| ProjectDetails.InsertByCompleted | ProductivityCake/ViewModels/ProjectDetailsViewModel.cs:45 | inserting into a sorted list keeps it sorted latest-first and adds exactly the element |
| ProjectDetails.HeadDominates | ProductivityCake/ViewModels/ProjectDetailsViewModel.cs:45 | the head of a sorted list stays first after an insertion behind it |
| ProjectDetails.PrependLatest | ProductivityCake/ViewModels/ProjectDetailsViewModel.cs:45 | a task completed later than the head of a sorted list goes in front of it and the list stays sorted |
| ProjectDetails.SortByCompletedDesc | ProductivityCake/ViewModels/ProjectDetailsViewModel.cs:45 | OrderByDescending(CompletedAt): sorted latest first with null last, and a permutation |
| ProjectDetails.TagIdsOf | ProductivityCake/ViewModels/ProjectDetailsViewModel.cs:204 | the ids of the selected tags, in order |
| ProjectDetails.CategoryIdOf | ProductivityCake/ViewModels/ProjectDetailsViewModel.cs:203 | `SelectedCategory?.Id` |
| ProjectDetails.NewTask | ProductivityCake/ViewModels/ProjectDetailsViewModel.cs:196-207 | trimmed title and description, the form's fields, id 0, created now; complete iff Done and CompletedAt set iff Done |
| ProjectDetails.EditedTask | ProductivityCake/ViewModels/ProjectDetailsViewModel.cs:266-281 | complete iff Done; CompletedAt set on first becoming Done, kept while Done, cleared otherwise; id, project and creation kept |
| ProjectDetails.EditIdempotent | ProductivityCake/ViewModels/ProjectDetailsViewModel.cs:266-281 | saving the same form again at any later time changes nothing |
| ProjectDetails.ResolveTags | ProductivityCake/ViewModels/ProjectDetailsViewModel.cs:126-133 | ids without a category are dropped; every known id's category is present and every result is a known category |
| ProjectDetails.Resolved | ProductivityCake/ViewModels/ProjectDetailsViewModel.cs:118-134 | only category and tags change; each is looked up only when ids are present |
| ProjectDetails.LoadedTasks | ProductivityCake/ViewModels/ProjectDetailsViewModel.cs:114-136 | exactly the project's tasks in store order, each resolved |
| ProjectDetails.WithTag | ProductivityCake/ViewModels/ProjectDetailsViewModel.cs:402-409 | the tag is present after; appended only when absent |
| ProjectDetails.AddTagIdempotent | ProductivityCake/ViewModels/ProjectDetailsViewModel.cs:402-409 | adding a tag twice is adding it once |
| ProjectDetails.WithoutTag | ProductivityCake/ViewModels/ProjectDetailsViewModel.cs:411-415 | one occurrence fewer; absent afterwards when it occurred once |
| ProjectDetails.Toggled | ProductivityCake/ViewModels/ProjectDetailsViewModel.cs:417-427 | a selected tag (once) is removed, an unselected one added; other tags unchanged |
| ProjectDetails.ToggleTwice | ProductivityCake/ViewModels/ProjectDetailsViewModel.cs:417-427 | toggling twice restores the selection as a multiset and its membership |
| ProjectDetails.ResolveAll | ProductivityCake/ViewModels/ProjectDetailsViewModel.cs:118-134 | the foreach resolves every task as Resolved states |
| ProjectDetails.ClearedForm | ProductivityCake/ViewModels/ProjectDetailsViewModel.cs:180-186 | empty title, ToDo, no tags, dialogs closed |
| ProjectDetails.ProjectDetailsViewModel.constructor | ProductivityCake/ViewModels/ProjectDetailsViewModel.cs:89-95 | no project, no tasks, a cleared form; the categories are loaded from the service as GetAllCategoriesAsync leaves them, and the service stays valid |
| ProjectDetails.ProjectDetailsViewModel.TodoTasks | ProductivityCake/ViewModels/ProjectDetailsViewModel.cs:38-39 | exactly the ToDo tasks |
| ProjectDetails.ProjectDetailsViewModel.DoingTasks | ProductivityCake/ViewModels/ProjectDetailsViewModel.cs:41-42 | exactly the Doing tasks |
| ProjectDetails.ProjectDetailsViewModel.DoneTasks | ProductivityCake/ViewModels/ProjectDetailsViewModel.cs:44-45 | a permutation of the Done tasks, latest completion first |
| ProjectDetails.ProjectDetailsViewModel.CanSaveTask | ProductivityCake/ViewModels/ProjectDetailsViewModel.cs:355 | true iff the trimmed title is non-empty |
| ProjectDetails.ProjectDetailsViewModel.IsTagSelected | ProductivityCake/ViewModels/ProjectDetailsViewModel.cs:458-461 | true iff some selected tag has the id; a selected tag is always reported |
| ProjectDetails.ProjectDetailsViewModel.AddTag | ProductivityCake/ViewModels/ProjectDetailsViewModel.cs:402-409 | the selection becomes WithTag; nothing else changes |
| ProjectDetails.ProjectDetailsViewModel.RemoveTag | ProductivityCake/ViewModels/ProjectDetailsViewModel.cs:411-415 | the selection becomes WithoutTag; nothing else changes |
| ProjectDetails.ProjectDetailsViewModel.ToggleTag | ProductivityCake/ViewModels/ProjectDetailsViewModel.cs:417-431 | the selection becomes Toggled; nothing else changes |
| ProjectDetails.ProjectDetailsViewModel.OpenAddTaskDialog | ProductivityCake/ViewModels/ProjectDetailsViewModel.cs:165-175 | an empty form due one day from now, the add dialog open |
| ProjectDetails.ProjectDetailsViewModel.CancelAddTask | ProductivityCake/ViewModels/ProjectDetailsViewModel.cs:177-187 | the add form cleared and closed |
| ProjectDetails.ProjectDetailsViewModel.ClearAddForm | ProductivityCake/ViewModels/ProjectDetailsViewModel.cs:213-219 | the add form cleared and closed |
| ProjectDetails.ProjectDetailsViewModel.OpenEditTaskDialog | ProductivityCake/ViewModels/ProjectDetailsViewModel.cs:229-244 | the form takes the task's fields, category and tags; the edit dialog is open |
| ProjectDetails.ProjectDetailsViewModel.CancelEditTask | ProductivityCake/ViewModels/ProjectDetailsViewModel.cs:246-257 | the edit form cleared and closed, no task selected |
| ProjectDetails.ProjectDetailsViewModel.ClearEditForm | ProductivityCake/ViewModels/ProjectDetailsViewModel.cs:286-293 | the edit form cleared and closed, no task selected |
| ProjectDetails.ProjectDetailsViewModel.Initialize | ProductivityCake/ViewModels/ProjectDetailsViewModel.cs:101-105 | the project is shown and its tasks loaded |
| ProjectDetails.ProjectDetailsViewModel.LoadTasks | ProductivityCake/ViewModels/ProjectDetailsViewModel.cs:107-147 | no project: no change; otherwise LoadedTasks of the store |
| ProjectDetails.ProjectDetailsViewModel.LoadCategories | ProductivityCake/ViewModels/ProjectDetailsViewModel.cs:149-163 | the view takes the service's categories, which an empty table reloads from the file (defaults, stored list, or empty) with the counter and file that reload gives |
| ProjectDetails.ProjectDetailsViewModel.AddTask | ProductivityCake/ViewModels/ProjectDetailsViewModel.cs:189-227 | the form's NewTask is created in the store, the form cleared and the tasks reloaded; without a project nothing happens |
| ProjectDetails.ProjectDetailsViewModel.UpdateTask | ProductivityCake/ViewModels/ProjectDetailsViewModel.cs:259-301 | the EditedTask replaces the stored task, the form is cleared and the tasks reloaded; with no task selected nothing happens |
| ProjectDetails.ProjectDetailsViewModel.DeleteTask | ProductivityCake/ViewModels/ProjectDetailsViewModel.cs:303-317 | the task's id is deleted from the store and the tasks reloaded |
| ProjectDetails.ProjectDetailsViewModel.DeleteTag | ProductivityCake/ViewModels/ProjectDetailsViewModel.cs:433-456 | the tag is unselected and the rest of the form kept; the category with its id is removed at its index and the table saved, counter unchanged; an unknown id only reloads; categories mirror the service; with no project the tasks are unchanged, otherwise they are reloaded |
| ProjectDetails.ProjectDetailsViewModel.DropCategory | ProductivityCake/ViewModels/ProjectDetailsViewModel.cs:443-447 | the category with the id is removed at its index and the table saved; an unknown id only reloads; the form, project and tasks are unchanged |
| CategoryCombo.HashKey | ProductivityCake/Controls/CategoryComboBox.axaml.cs:251-254 | the case-folded name that GetHashCode hashes |
| CategoryCombo.HashKeyMatchesEquality | ProductivityCake/Controls/CategoryComboBox.axaml.cs:246-254 | equal categories have the same hash key, and the same key means equal |
| CategoryCombo.SameCategoryIsEquivalence | ProductivityCake/Controls/CategoryComboBox.axaml.cs:246-249 | Equals is reflexive, symmetric and transitive |
| CategoryCombo.SameCategory | ProductivityCake/Controls/CategoryComboBox.axaml.cs:246-249 | two categories are equal iff their case-folded names are equal |
| CategoryCombo.AfterAdd | ProductivityCake/Controls/CategoryComboBox.axaml.cs:200-216 | an existing name (ignoring case) selects the first such category with the list unchanged; otherwise the name is appended and selected |
| CategoryCombo.AfterAddKeepsNoDuplicates | ProductivityCake/Controls/CategoryComboBox.axaml.cs:200-216 | adding never creates a case-insensitive duplicate |
| CategoryCombo.AfterAddTwice | ProductivityCake/Controls/CategoryComboBox.axaml.cs:200-216 | adding the same name twice adds it once |
| CategoryCombo.CategoryComboBox.constructor | ProductivityCake/Controls/CategoryComboBox.axaml.cs:25-34 | no categories, nothing selected, placeholder "Select Category" |
| CategoryCombo.CategoryComboBox.DisplayText | ProductivityCake/Controls/CategoryComboBox.axaml.cs:122-127 | the selected name, or the placeholder when nothing is selected |
| CategoryCombo.CategoryComboBox.ButtonLabels | ProductivityCake/Controls/CategoryComboBox.axaml.cs:129-149 | one button per category, labelled with its name, in order |
| CategoryCombo.CategoryComboBox.OnCategorySelected | ProductivityCake/Controls/CategoryComboBox.axaml.cs:152-167 | the category is selected and displayed, the flyout hidden, the old and new selection reported |
| CategoryCombo.CategoryComboBox.AddNewCategory | ProductivityCake/Controls/CategoryComboBox.axaml.cs:192-224 | null or blank text: no change at all; otherwise AfterAdd of the trimmed text, reporting the appended category, then cleared and closed; no duplicates are introduced |
| CategoryCombo.CategoryComboBox.ClearAndCloseFlyout | ProductivityCake/Controls/CategoryComboBox.axaml.cs:226-233 | empty text, flyout closed |

## Left out

- The System.Threading.Timer thread and its race with the UI commands. The tick is an explicit TimerCallback(now).
- StartTimer reads DateTime.Now twice; the model uses one instant for both.
- Every command and every tick is evaluated at a single instant `now`. The source reads DateTime.Now or DateTime.Today again inside one step (TimerViewModel.cs:239-240, 252, 373, 574, 598, 667 and 794), so a step that straddles midnight can use two different days there.
- Seqs.NextId, JsonData.AssignId and the services' counters (ProjectServices and CategoryServices Valid) use unbounded integers. The source's `Max(…) + 1` (JsonDataService.cs:80, ProjectService.cs:40, CategoryService.cs:88) and `_nextId++` (ProjectService.cs:96, CategoryService.cs:37) wrap around at Int32.MaxValue; the model does not capture that wrap-around and its duplicate or negative ids.
- SendNotification, PlayAlarmSound and OpenGitHub. They spawn processes and play sound.
- Progress and the angle converter. They are floating-point display values.
- Culture-dependent text. Month names are month numbers, and tooltips are (date, count) pairs. CurrentMonthName is not modelled.
- The `monthLabels` dictionary in GenerateHeatmap. It is never used.
- Pomodoro.GenerateHeatmap: the heatmap is rebuilt only when the timer is constructed and when a Work session is counted, as in the source. It can therefore show a stale "today" across midnight.
- File and JSON I/O, the semaphore and async/await. Each file is a value, and a write always succeeds, so SaveChangesAsync never returns false here.
- The exception handlers. A thrown KeyNotFoundException is a `false` result; a load failure is the `Malformed` file case.
- Reference identity and aliasing. Tasks, projects and categories are values, so:
  - UpdateTaskAsync's in-place change of the selected task is not seen through the board's task list until the reload;
  - SelectedTags.Contains and Remove use value equality, where the source compares references.
- The ProjectsChanged and CategoriesChanged events, and the reload they trigger.
- ProjectListViewModel's ArchiveProjectAsync and UnarchiveProjectAsync. They only call the service methods, which are modelled, and the list refreshes through ProjectsChanged.
- ProjectListViewModel's OpenProjectDetails and NavigateBack, and the navigation service.
- ProjectDetails.SortByCompletedDesc: OrderByDescending is stable. The model's insertion keeps equal completion times in list order, but no lemma states that.
- CategoryCombo.HashKey: the integer hash values are not modelled. Only the key they are computed from is, which is what consistency with Equals rests on.
- Text.EqualsIgnoreCase folds only ASCII letters. The full Unicode case mapping of OrdinalIgnoreCase is not modelled.
- Models.CompletionPercentage: the double division and multiplication are taken as exact before Math.Round, with banker's rounding on the exact ratio.
- Times as DateTimeOffset are integer seconds. Offsets and sub-second ticks are not modelled.
- CategoryComboBox with a null Categories collection is not modelled; the list is always present. The flyout, buttons and key handling are UI wiring.
- ProjectDetailsViewModel's AddCategoryAsync and its category dialog, the expand toggles and the task-details dialog. They are dialog plumbing around CategoryService.CreateCategory, which is modelled.
- The view models' null-service guards. Services are always present.
- SwipeNumberPicker and the remaining views, converters and navigation glue.
- The TodoItem.Project navigation property. It is never read by the core.
