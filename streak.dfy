/** The consecutive-day streak of the timer: how many days in a row ended
    with at least one session, the best such run, and the day of the last
    session. */
module Streaks {
  import opened Calendar

  datatype Streak = Streak(current: int, longest: int, lastSessionDate: int)

  /** A fresh streak: nothing recorded, the last session date is DateTime.MinValue. */
  const NoStreak: Streak := Streak(0, 0, MinValueDay)

  /** The best run is never shorter than the current one. */
  predicate Consistent(s: Streak) {
    0 <= s.current <= s.longest
  }

  /** UpdateStreak on day `today`: the first session ever starts a streak of
      one, a second session on the same day changes nothing, a session the
      day after the last one extends the streak, and any later session
      starts over at one. The best run follows the current one upwards. */
  function UpdateStreak(s: Streak, today: int): (r: Streak)
    ensures s.lastSessionDate == MinValueDay ==> r.current == 1 && r.lastSessionDate == today
    ensures s.lastSessionDate != MinValueDay && s.lastSessionDate == today ==> r == s
    ensures s.lastSessionDate != MinValueDay && s.lastSessionDate != today && s.lastSessionDate == today - 1 ==>
      r.current == s.current + 1 && r.lastSessionDate == today
    ensures s.lastSessionDate != MinValueDay && s.lastSessionDate != today && s.lastSessionDate != today - 1 ==>
      r.current == 1 && r.lastSessionDate == today
    ensures r.longest >= s.longest
    ensures r != s ==> r.longest == if r.current > s.longest then r.current else s.longest
    ensures Consistent(s) ==> Consistent(r)
  {
    if s.lastSessionDate == MinValueDay then
      Raise(Streak(1, s.longest, today))
    else if s.lastSessionDate == today then
      s
    else if s.lastSessionDate == today - 1 then
      Raise(Streak(s.current + 1, s.longest, today))
    else
      Raise(Streak(1, s.longest, today))
  }

  /** `if (CurrentStreak > LongestStreak) LongestStreak = CurrentStreak;` */
  function Raise(s: Streak): (r: Streak)
    ensures r.current == s.current && r.lastSessionDate == s.lastSessionDate
    ensures r.longest >= s.longest && r.longest >= s.current
    ensures r.longest == s.longest || r.longest == s.current
  {
    if s.current > s.longest then s.(longest := s.current) else s
  }

  /** Updating twice on the same day is updating once (dates never precede
      DateTime.MinValue). */
  lemma UpdateStreakIdempotent(s: Streak, today: int)
    requires s.lastSessionDate >= MinValueDay
    ensures UpdateStreak(UpdateStreak(s, today), today) == UpdateStreak(s, today)
  {
    var r := UpdateStreak(s, today);
    if today == MinValueDay {
      assert r.current == 1;
      assert r.longest >= 1;
    }
  }

  /** The streak after one session on each of the days in `days`, in order. */
  function UpdateOnDays(s: Streak, days: seq<int>): (r: Streak)
    ensures days != [] ==> r.lastSessionDate == days[|days| - 1]
    ensures r.longest >= s.longest
    ensures Consistent(s) ==> Consistent(r)
    decreases |days|
  {
    if days == [] then s else UpdateOnDays(UpdateStreak(s, days[0]), days[1..])
  }

  /** `n` consecutive days starting at `first`. */
  function DaysFrom(first: int, n: nat): (ds: seq<int>)
    ensures |ds| == n && forall i :: 0 <= i < n ==> ds[i] == first + i
    decreases n
  {
    if n == 0 then [] else [first] + DaysFrom(first + 1, n - 1)
  }

  /** Sessions on `n` consecutive days, the first of them the day after the
      last recorded session, lengthen the streak by exactly `n`, and the best
      run is at least the new streak. */
  lemma {:induction false} ConsecutiveDaysExtend(s: Streak, first: int, n: nat)
    requires s.lastSessionDate != MinValueDay && s.lastSessionDate == first - 1
    requires MinValueDay < first
    requires Consistent(s)
    ensures var r := UpdateOnDays(s, DaysFrom(first, n));
      r.current == s.current + n && Consistent(r) && (n > 0 ==> r.lastSessionDate == first + n - 1)
    decreases n
  {
    if n > 0 {
      var s1 := UpdateStreak(s, first);
      assert DaysFrom(first, n)[1..] == DaysFrom(first + 1, n - 1);
      ConsecutiveDaysExtend(s1, first + 1, n - 1);
    }
  }

  /** Skipping a day breaks the streak: the next session counts as day one. */
  lemma GapResets(s: Streak, today: int)
    requires s.lastSessionDate != MinValueDay && s.lastSessionDate < today - 1
    ensures UpdateStreak(s, today).current == 1
  {
  }
}
