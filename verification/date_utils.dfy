/** The Vietnamese date utilities of the frontend: the message time stamp
    (`formatTime`), the relative "time ago" text (`timeAgo`) and the elapsed-time
    summary (`getTimeElapsed`). The local calendar is an input: a date arrives with its
    local day and clock time, and the clock with the local days of now and of 24 hours
    before. */
module DateUtils {
  import opened Common

  datatype CalendarDay = CalendarDay(year: int, month0: nat, day: nat)

  /** The local reading of an instant: its calendar day and its hours and minutes. */
  datatype LocalTime = LocalTime(day: CalendarDay, hours: nat, minutes: nat)

  /** The argument of the utilities: a falsy value (`Missing`), a value `new Date`
      cannot read (`Invalid`), or an instant in milliseconds with its local reading. */
  datatype DateInput = Missing | Invalid | Valid(ms: int, local: LocalTime)

  /** The clock: `now` in milliseconds, the local day of `now`, and the local day of
      `now - 86400000`. */
  datatype Clock = Clock(now: int, today: CalendarDay, dayBefore: CalendarDay)

  const Yesterday := "Hôm qua, "

  /** `${hours}:${minutes}`, each padded to two digits. */
  function TimeText(t: LocalTime): string {
    Pad2(t.hours) + ":" + Pad2(t.minutes)
  }

  /** A clock time of the day reads "HH:MM": five characters, a colon in the middle and
      digits around it. */
  lemma TimeTextShape(t: LocalTime)
    requires t.hours < 24 && t.minutes < 60
    ensures var s := TimeText(t);
            && |s| == 5 && s[2] == ':'
            && forall k :: 0 <= k < 5 && k != 2 ==> IsDigit(s[k])
  {
    NatToStringLength(t.hours);
    NatToStringLength(t.minutes);
  }

  /** `formatTime(date)`: the time alone today, "Hôm qua, " and the time for yesterday,
      day/month and the time earlier in the same year, and day/month/year and the time
      otherwise. Days and months are not padded. */
  function FormatTime(date: DateInput, clock: Clock): (r: string)
    ensures !date.Valid? <==> r == ""
    ensures date.Valid? ==> |r| >= |TimeText(date.local)| && r[|r| - |TimeText(date.local)|..] == TimeText(date.local)
    ensures date.Valid? && date.local.day == clock.today ==> r == TimeText(date.local)
    ensures date.Valid? && date.local.day != clock.today && date.local.day == clock.dayBefore ==>
              r == Yesterday + TimeText(date.local)
  {
    match date
    case Missing => ""
    case Invalid => ""
    case Valid(_, local) =>
      var timeStr := TimeText(local);
      var d := local.day;
      if d == clock.today then timeStr
      else if d == clock.dayBefore then Yesterday + timeStr
      else if d.year == clock.today.year then
        NatToString(d.day) + "/" + NatToString(d.month0 + 1) + ", " + timeStr
      else
        NatToString(d.day) + "/" + NatToString(d.month0 + 1) + "/" + IntToString(d.year) + ", " + timeStr
  }

  /** Older dates carry their day and month, and the year only when it is not the
      current one. */
  lemma FormatTimeOlder(date: DateInput, clock: Clock)
    requires date.Valid? && date.local.day != clock.today && date.local.day != clock.dayBefore
    ensures var d := date.local.day;
            var prefix := NatToString(d.day) + "/" + NatToString(d.month0 + 1);
            && StartsWith(FormatTime(date, clock), prefix)
            && (d.year == clock.today.year ==> FormatTime(date, clock) == prefix + ", " + TimeText(date.local))
            && (d.year != clock.today.year ==>
                  FormatTime(date, clock) == prefix + "/" + IntToString(d.year) + ", " + TimeText(date.local))
  {
    var d := date.local.day;
    var prefix := NatToString(d.day) + "/" + NatToString(d.month0 + 1);
    var r := FormatTime(date, clock);
    if d.year == clock.today.year {
      assert r == prefix + (", " + TimeText(date.local));
    } else {
      assert r == prefix + ("/" + IntToString(d.year) + ", " + TimeText(date.local));
    }
  }

  const MinuteMs := 60000
  const HourMs := 3600000
  const DayMs := 86400000
  const WeekMs := 604800000

  /** `timeAgo(date)`: "Vừa xong" under a minute, then whole minutes, hours and days
      ago, and from a week on the time stamp of `formatTime`. */
  function TimeAgo(date: DateInput, clock: Clock): (r: string)
    ensures !date.Valid? ==> r == ""
  {
    if !date.Valid? then ""
    else
      var secondsAgo := (clock.now - date.ms) / 1000;
      if secondsAgo < 60 then "Vừa xong"
      else if secondsAgo < 3600 then NatToString(secondsAgo / 60) + " phút trước"
      else if secondsAgo < 86400 then NatToString(secondsAgo / 3600) + " giờ trước"
      else if secondsAgo < 604800 then NatToString(secondsAgo / 86400) + " ngày trước"
      else FormatTime(date, clock)
  }

  /** The buckets of `timeAgo` in milliseconds, each count the floor of the elapsed time
      by its unit and within the unit's range; from a week on it is `formatTime`. */
  lemma TimeAgoBuckets(date: DateInput, clock: Clock)
    requires date.Valid?
    ensures var diff := clock.now - date.ms;
            var r := TimeAgo(date, clock);
            && (diff < MinuteMs ==> r == "Vừa xong")
            && (MinuteMs <= diff < HourMs ==>
                  1 <= diff / MinuteMs < 60 && r == NatToString(diff / MinuteMs) + " phút trước")
            && (HourMs <= diff < DayMs ==>
                  1 <= diff / HourMs < 24 && r == NatToString(diff / HourMs) + " giờ trước")
            && (DayMs <= diff < WeekMs ==>
                  1 <= diff / DayMs < 7 && r == NatToString(diff / DayMs) + " ngày trước")
            && (diff >= WeekMs ==> r == FormatTime(date, clock))
  {
    var diff := clock.now - date.ms;
    FloorTwice(diff, 1000, 60);
    FloorTwice(diff, 1000, 3600);
    FloorTwice(diff, 1000, 86400);
  }

  // ---------------------------------------------------------------- elapsed time

  /** JavaScript's `%` on integers: the remainder takes the sign of the dividend. */
  function JsRem(a: int, b: int): (r: int)
    requires b > 0
    ensures a >= 0 ==> r == a % b
    ensures -b < r < b
    ensures a <= 0 ==> r <= 0
  {
    if a >= 0 then a % b else -((-a) % b)
  }

  /** The days, hours, minutes and seconds of `getTimeElapsed`. */
  datatype Parts = Parts(days: int, hours: int, minutes: int, seconds: int)

  function ElapsedParts(timeDiff: int): Parts {
    Parts(timeDiff / DayMs,
          JsRem(timeDiff, DayMs) / HourMs,
          JsRem(timeDiff, HourMs) / MinuteMs,
          JsRem(timeDiff, MinuteMs) / 1000)
  }

  /** For a non-negative difference the parts are a mixed-radix reading of it: hours
      below 24, minutes and seconds below 60, and together they account for the
      difference up to the milliseconds dropped. */
  lemma ElapsedPartsSound(timeDiff: int)
    requires timeDiff >= 0
    ensures var p := ElapsedParts(timeDiff);
            && p.days >= 0 && 0 <= p.hours < 24 && 0 <= p.minutes < 60 && 0 <= p.seconds < 60
            && var total := p.days * DayMs + p.hours * HourMs + p.minutes * MinuteMs + p.seconds * 1000;
               total <= timeDiff < total + 1000
  {
    var a := timeDiff;
    var p := ElapsedParts(a);
    ModOfMod(a, HourMs, 24);
    ModOfMod(a, MinuteMs, 60);
    var rd := a % DayMs;
    var rh := a % HourMs;
    var rm := a % MinuteMs;
    assert a == p.days * DayMs + rd;
    assert rd == p.hours * HourMs + rd % HourMs;
    assert rd % HourMs == rh;
    assert rh == p.minutes * MinuteMs + rh % MinuteMs;
    assert rh % MinuteMs == rm;
    assert rm == p.seconds * 1000 + rm % 1000;
  }

  /** `getTimeElapsed(dateString)` with the clock `now`: the two largest units from
      the largest non-zero one, or the seconds alone. An unreadable date prints "NaNs",
      since every part is `NaN`. */
  function GetTimeElapsed(date: DateInput, now: int): (r: string)
    ensures date.Missing? <==> r == ""
    ensures date.Invalid? ==> r == "NaNs"
  {
    match date
    case Missing => ""
    case Invalid => "NaNs"
    case Valid(ms, _) =>
      var p := ElapsedParts(now - ms);
      if p.days > 0 then IntToString(p.days) + "d " + IntToString(p.hours) + "h"
      else if p.hours > 0 then IntToString(p.hours) + "h " + IntToString(p.minutes) + "m"
      else if p.minutes > 0 then IntToString(p.minutes) + "m " + IntToString(p.seconds) + "s"
      else IntToString(p.seconds) + "s"
  }

  /** The unit the summary starts with follows the elapsed time: days from a day on,
      hours from an hour, minutes from a minute, and seconds below that. */
  lemma GetTimeElapsedUnits(ms: int, local: LocalTime, now: int)
    requires now - ms >= 0
    ensures var diff := now - ms;
            var p := ElapsedParts(diff);
            var r := GetTimeElapsed(Valid(ms, local), now);
            && (diff >= DayMs ==> r == NatToString(p.days) + "d " + NatToString(p.hours) + "h")
            && (HourMs <= diff < DayMs ==> r == NatToString(p.hours) + "h " + NatToString(p.minutes) + "m")
            && (MinuteMs <= diff < HourMs ==> r == NatToString(p.minutes) + "m " + NatToString(p.seconds) + "s")
            && (diff < MinuteMs ==> r == NatToString(p.seconds) + "s" && p.seconds == diff / 1000)
  {
    var diff := now - ms;
    ElapsedPartsSound(diff);
    var p := ElapsedParts(diff);
    if diff < DayMs {
      assert p.days == 0;
      assert diff % DayMs == diff;
      if diff < HourMs {
        assert p.hours == 0;
        assert diff % HourMs == diff;
        if diff < MinuteMs {
          assert p.minutes == 0;
          assert diff % MinuteMs == diff;
        }
      }
    }
  }
}
