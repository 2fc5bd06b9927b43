/** The strings the timer screen derives from its state: the session-kind
    name, the "n/4 Sessions" counter and the formatting of time spans. */
module TimerDisplay {
  import opened Text
  import opened Pomodoro

  /** StateDisplayName: both work states read "Work Session". */
  function StateDisplayName(s: TimerState): (name: string)
    ensures name == "Work Session" <==> IsWorkState(s)
    ensures name == "Short Break" <==> s == ShortBreak
    ensures name == "Long Break" <==> s == LongBreak
  {
    match s
    case Work => "Work Session"
    case LongWork => "Work Session"
    case ShortBreak => "Short Break"
    case LongBreak => "Long Break"
  }

  /** The position (1 to 4) of the current session within its round of four. */
  function CurrentSessionNumber(completed: nat): (n: int)
    ensures 1 <= n <= PomodorosBeforeLongBreak
    ensures (n - 1 - completed) % PomodorosBeforeLongBreak == 0
  {
    completed % PomodorosBeforeLongBreak + 1
  }

  /** CurrentSessionDisplay: "n/4 Sessions". */
  function CurrentSessionDisplay(completed: nat): (text: string)
    ensures text == Digits(CurrentSessionNumber(completed)) + "/4 Sessions"
    ensures |text| == 12
  {
    IntToString(CurrentSessionNumber(completed)) + "/" + IntToString(PomodorosBeforeLongBreak) + " Sessions"
  }

  /** A work session that expires while the counter shows "4/4" is followed
      by the long break, and one that expires at any other position by the
      short break. */
  lemma FourOfFourLeadsToLongBreak(t: TimerModel, now: int)
    requires t.state == Work && t.endTime - now <= 0
    ensures CurrentSessionNumber(t.completedPomodoros) == 4 <==> TimerCallback(t, now).state == LongBreak
  {
    LongBreakEveryFourth(t, now);
  }

  /** C#'s integer division, which truncates toward zero. */
  function TruncDiv(a: int, b: int): (q: int)
    requires b > 0
    ensures a >= 0 ==> q == a / b
    ensures a < 0 ==> q == -((-a) / b)
  {
    if a >= 0 then a / b else -((-a) / b)
  }

  /** C#'s remainder, which takes the sign of the dividend. */
  function TruncRem(a: int, b: int): (r: int)
    requires b > 0
    ensures a == TruncDiv(a, b) * b + r
    ensures -b < r < b
    ensures a >= 0 ==> r == a % b
  {
    a - TruncDiv(a, b) * b
  }

  /** "{(int)t.TotalMinutes:D2}:{t.Seconds:D2}", the minute:second form that
      TimeDisplay shows and FormatTimeSpan uses under an hour. Both parts
      truncate toward zero, so a negative span shows negative parts. */
  function MinutesSeconds(t: int): (s: string)
    ensures t >= 0 ==> s == Pad2(t / 60) + ":" + Pad2(t % 60)
    ensures -60 < t < 0 ==> s == "00:-" + Pad2(-t)
  {
    var minutes := TruncDiv(t, 60);
    var seconds := TruncRem(t, 60);
    assert -60 < t < 0 ==> minutes == 0 && seconds == t;
    FormatD2(minutes) + ":" + FormatD2(seconds)
  }

  /** FormatTimeSpan: under 60 minutes the minute:second form, otherwise
      "{hours}h {minutes:D2}m" with whole hours and the minutes past them. */
  function FormatTimeSpan(t: int): (s: string)
    ensures 0 <= t < 3600 ==> s == Pad2(t / 60) + ":" + Pad2(t % 60)
    ensures t >= 3600 ==> s == Digits(t / 3600) + "h " + Pad2((t / 60) % 60) + "m"
  {
    if t < 3600 then MinutesSeconds(t)
    else IntToString(TruncDiv(t, 3600)) + "h " + FormatD2(TruncRem(TruncDiv(t, 60), 60)) + "m"
  }

  /** A span of under an hour is shown as five characters "MM:SS" from which
      the span is read back exactly. */
  lemma FormatShortSpan(t: int)
    requires 0 <= t < 3600
    ensures var s := FormatTimeSpan(t);
      && |s| == 5 && s[2] == ':'
      && (forall i :: 0 <= i < 5 && i != 2 ==> '0' <= s[i] <= '9')
      && ParseDigits(s[..2]) * 60 + ParseDigits(s[3..]) == t
  {
    var s := FormatTimeSpan(t);
    assert s == Pad2(t / 60) + ":" + Pad2(t % 60);
    assert s[..2] == Pad2(t / 60);
    assert s[3..] == Pad2(t % 60);
  }

  /** `s` is "Hh MMm": one or more digits reading back as `hours`, "h ",
      two digits reading back as `minutes`, then "m". */
  predicate LongSpanText(s: string, hours: int, minutes: int) {
    var k := |s| - 5;
    && k >= 1
    && (forall i :: 0 <= i < k ==> '0' <= s[i] <= '9')
    && s[k..k + 2] == "h "
    && (forall i :: k + 2 <= i < k + 4 ==> '0' <= s[i] <= '9')
    && s[k + 4] == 'm'
    && ParseDigits(s[..k]) == hours
    && ParseDigits(s[k + 2..k + 4]) == minutes
  }

  /** A span of an hour or more is shown as "Hh MMm": its hours and its
      minutes past the hour are read back, so the span is recovered to the
      minute. */
  lemma FormatLongSpan(t: int)
    requires t >= 3600
    ensures LongSpanText(FormatTimeSpan(t), t / 3600, (t / 60) % 60)
    ensures t - t % 60 == (t / 3600) * 3600 + ((t / 60) % 60) * 60
  {
    var hours := t / 3600;
    var minutes := (t / 60) % 60;
    assert TruncDiv(t, 3600) == hours && TruncRem(TruncDiv(t, 60), 60) == minutes;
    assert FormatTimeSpan(t) == Digits(hours) + "h " + Pad2(minutes) + "m";
    HoursMinutesText(hours, minutes);
    HoursMinutesSeconds(t);
  }

  /** The "Hh MMm" text of `hours` and `minutes` reads back as them. */
  lemma HoursMinutesText(hours: nat, minutes: nat)
    requires minutes < 60
    ensures LongSpanText(Digits(hours) + "h " + Pad2(minutes) + "m", hours, minutes)
  {
    ParseDigitsOfDigits(hours);
    LongSpanOf(Digits(hours), Pad2(minutes), hours, minutes);
  }

  /** Any digits `h` and two digits `m` lay out as "Hh MMm". */
  lemma LongSpanOf(h: string, m: string, hours: int, minutes: int)
    requires |h| >= 1 && forall i :: 0 <= i < |h| ==> '0' <= h[i] <= '9'
    requires |m| == 2 && forall i :: 0 <= i < |m| ==> '0' <= m[i] <= '9'
    requires ParseDigits(h) == hours && ParseDigits(m) == minutes
    ensures LongSpanText(h + "h " + m + "m", hours, minutes)
  {
    HoursMinutesLayout(h, m);
  }

  /** Where the pieces of `h + "h " + m + "m"` sit, for a two-digit `m`. */
  lemma HoursMinutesLayout(h: string, m: string)
    requires |m| == 2
    ensures var s := h + "h " + m + "m"; var k := |h|;
      && |s| == k + 5
      && s[..k] == h && s[k..k + 2] == "h " && s[k + 2..k + 4] == m && s[k + 4] == 'm'
      && (forall i :: 0 <= i < k ==> s[i] == h[i])
      && (forall i :: k + 2 <= i < k + 4 ==> s[i] == m[i - k - 2])
  {
    var s := h + "h " + m + "m";
    var k := |h|;
    assert s[..k] == h;
    assert s[k + 2..k + 4] == m;
  }

  /** Whole hours, minutes past the hour and seconds past the minute make up
      the span. */
  lemma HoursMinutesSeconds(t: int)
    requires t >= 0
    ensures t == (t / 3600) * 3600 + ((t / 60) % 60) * 60 + t % 60
  {
    var a := t / 60;
    var b := a / 60;
    assert t == 60 * a + t % 60;
    assert a == 60 * b + a % 60;
    assert 0 <= 60 * (a % 60) + t % 60 < 3600;
    assert t == 3600 * b + (60 * (a % 60) + t % 60);
  }
}
