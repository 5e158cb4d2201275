/**
 * The clock-time helpers of the shared utilities: `formatTime` (24-hour
 * "HH:MM" to 12-hour display) and `calculateTimeDifference` (duration
 * between two clock times, wrapping past midnight).
 */
module TimeFormat {
  import opened Wrappers
  import opened Strings

  /** JavaScript's `a % b`: the remainder takes the sign of the dividend. */
  function JsRem(a: int, b: int): (r: int)
    requires b > 0
    ensures a >= 0 ==> r == a % b
    ensures -b < r < b
    ensures a < 0 ==> r <= 0
    ensures (a - r) % b == 0
  {
    if a >= 0 then
      MultipleOf(a - a % b, b, a / b);
      a % b
    else
      MultipleOf(a + (-a) % b, b, -((-a) / b));
      -((-a) % b)
  }

  lemma MultipleOf(n: int, b: int, q: int)
    requires b > 0 && n == b * q
    ensures n % b == 0
  {
    ModUnique(n, b, q, 0);
  }

  /** `hour % 12 || 12`: a zero remainder, and NaN, both display as 12. */
  function DisplayHour(hour: Option<int>): int {
    match hour
    case None => 12
    case Some(h) => if JsRem(h, 12) == 0 then 12 else JsRem(h, 12)
  }

  /** `hour >= 12 ? 'PM' : 'AM'`; NaN compares false and gives "AM". */
  function Meridiem(hour: Option<int>): string {
    if hour.Some? && hour.value >= 12 then "PM" else "AM"
  }

  /**
   * formatTime: "" for the empty string; otherwise the hour before the first
   * ":" (read by parseInt) in 12-hour form, ":", the text between the first
   * and second ":" as it is ("undefined" when there is no ":"), a space and
   * the meridiem.
   */
  function FormatTime(timeString: string): (r: string)
    ensures r == "" <==> timeString == ""
  {
    if timeString == "" then ""
    else
      var parts := Split(timeString, ':');
      var minutes := if |parts| >= 2 then parts[1] else "undefined";
      var hour := ParseInt(parts[0]);
      IntToString(DisplayHour(hour)) + ":" + minutes + " " + Meridiem(hour)
  }

  lemma SplitClock(hh: string, mm: string)
    requires ':' !in hh && ':' !in mm
    ensures Split(hh + ":" + mm, ':') == [hh, mm]
  {
    SplitJoin([hh, mm], ':');
    assert Join([hh, mm], [':']) == hh + ":" + mm;
  }

  /**
   * On a well-formed "HH:MM" string (any number of hour digits), the
   * displayed hour is in 1..12 and agrees with the hour modulo 12 (so both
   * 0 and 12 show as 12), the minutes text is copied unchanged, and the
   * suffix is "PM" exactly when the hour is at least 12.
   */
  lemma FormatTimeOfClock(hh: string, mm: string)
    requires hh != "" && AllDigits(hh) && ':' !in mm
    ensures var d := DisplayHour(Some(DigitsValue(hh)));
      1 <= d <= 12 && d % 12 == DigitsValue(hh) % 12
    ensures var h := DigitsValue(hh); var d := DisplayHour(Some(h));
      1 <= d && FormatTime(hh + ":" + mm) == NatToString(d) + ":" + mm + " " + (if h >= 12 then "PM" else "AM")
  {
    NoColonInDigits(hh);
    var h := DigitsValue(hh);
    var d: nat := if h % 12 == 0 then 12 else h % 12;
    DisplayHourOfNat(h);
    FormatTimeOfDigits(hh, mm, h, d);
  }

  lemma DisplayHourOfNat(h: nat)
    ensures DisplayHour(Some(h)) == (if h % 12 == 0 then 12 else h % 12)
    ensures 1 <= DisplayHour(Some(h)) <= 12 && DisplayHour(Some(h)) % 12 == h % 12
  {
  }

  lemma NoColonInDigits(s: string)
    requires AllDigits(s)
    ensures ':' !in s
  {
    forall i | 0 <= i < |s|
      ensures s[i] != ':'
    {
      assert IsDigit(s[i]);
    }
  }

  lemma FormatTimeOfDigits(hh: string, mm: string, h: nat, d: nat)
    requires hh != "" && AllDigits(hh) && ':' !in mm && ':' !in hh && h == DigitsValue(hh)
    requires d == if h % 12 == 0 then 12 else h % 12
    ensures DisplayHour(Some(h)) == d
    ensures FormatTime(hh + ":" + mm) == NatToString(d) + ":" + mm + " " + (if h >= 12 then "PM" else "AM")
  {
    SplitClock(hh, mm);
    ParseIntOfDigits(hh);
    assert DisplayHour(Some(h)) == d;
    assert IntToString(d) == NatToString(d);
    FormatTimeParts(hh + ":" + mm, hh, mm, Some(h));
  }

  lemma FormatTimeParts(s: string, hh: string, mm: string, hour: Option<int>)
    requires s != "" && Split(s, ':') == [hh, mm] && ParseInt(hh) == hour
    ensures FormatTime(s) == IntToString(DisplayHour(hour)) + ":" + mm + " " + Meridiem(hour)
  {
  }

  /** Midnight and noon both display as 12; hours 13..23 display as hour - 12. */
  lemma DisplayHourOfDay(h: int)
    requires 0 <= h < 24
    ensures 1 <= DisplayHour(Some(h)) <= 12
    ensures DisplayHour(Some(h)) == 12 <==> h == 0 || h == 12
    ensures 1 <= h <= 12 ==> DisplayHour(Some(h)) == h
    ensures h > 12 ==> DisplayHour(Some(h)) == h - 12
    ensures Meridiem(Some(h)) == "PM" <==> h >= 12
  {
  }

  // ---------------------------------------------------------------------
  // calculateTimeDifference

  /** `hours * 60 + minutes` */
  function Minutes(hours: int, minutes: int): int {
    hours * 60 + minutes
  }

  /** `split(':').map(Number)` destructured into hours and minutes: minutes since midnight, or NaN. */
  function ClockMinutes(time: string): Option<int>
  {
    var parts := Split(time, ':');
    if |parts| < 2 then None
    else match (JsNumber(parts[0]), JsNumber(parts[1]))
      case (Some(h), Some(m)) => Some(Minutes(h, m))
      case _ => None
  }

  /** The raw difference, with 24 * 60 added once when the end is earlier than the start. */
  function DiffMinutes(startMinutes: int, endMinutes: int): int {
    var diff := endMinutes - startMinutes;
    if diff < 0 then diff + 24 * 60 else diff
  }

  /** calculateTimeDifference: "<hours>h <minutes>m", or "NaNh NaNm" when either time does not parse. */
  function CalculateTimeDifference(start: string, end: string): (r: string)
    ensures ClockMinutes(start).None? || ClockMinutes(end).None? <==> r == "NaNh NaNm"
  {
    var s := ClockMinutes(start);
    var e := ClockMinutes(end);
    if s.None? || e.None? then "NaNh NaNm"
    else
      var diff := DiffMinutes(s.value, e.value);
      var r := IntToString(diff / 60) + "h " + IntToString(JsRem(diff, 60)) + "m";
      assert r[0] == IntToString(diff / 60)[0] && r[0] != "NaNh NaNm"[0];
      r
  }

  /** A valid clock time: hours 0..23, minutes 0..59, both written in decimal digits. */
  predicate IsClock(hh: string, mm: string) {
    AllDigits(hh) && AllDigits(mm) && DigitsValue(hh) < 24 && DigitsValue(mm) < 60
  }

  /** Minutes since midnight of a valid clock time. */
  function ClockValue(hh: string, mm: string): (v: nat)
    requires IsClock(hh, mm)
    ensures v < 24 * 60
  {
    Minutes(DigitsValue(hh), DigitsValue(mm))
  }

  /** A valid "HH:MM" time parses to its minutes since midnight. */
  lemma ClockMinutesOf(hh: string, mm: string)
    requires IsClock(hh, mm)
    ensures ClockMinutes(hh + ":" + mm) == Some(ClockValue(hh, mm))
  {
    NoColonInDigits(hh);
    NoColonInDigits(mm);
    SplitClock(hh, mm);
    ClockMinutesParts(hh + ":" + mm, hh, mm);
  }

  lemma ClockMinutesParts(time: string, hh: string, mm: string)
    requires Split(time, ':') == [hh, mm] && AllDigits(hh) && AllDigits(mm)
    ensures ClockMinutes(time) == Some(Minutes(DigitsValue(hh), DigitsValue(mm)))
  {
    var parts := Split(time, ':');
    assert |parts| == 2 && parts[0] == hh && parts[1] == mm;
    assert JsNumber(hh) == Some(DigitsValue(hh)) && JsNumber(mm) == Some(DigitsValue(mm));
  }

  /**
   * Between two valid clock times the difference lies in 0..1439: the end
   * minus the start, plus a day when the end is earlier; equal times give 0,
   * and for distinct times the two directions add up to a whole day.
   */
  lemma DiffMinutesOfDay(s: int, e: int)
    requires 0 <= s < 24 * 60 && 0 <= e < 24 * 60
    ensures 0 <= DiffMinutes(s, e) < 24 * 60
    ensures e >= s ==> DiffMinutes(s, e) == e - s
    ensures e < s ==> DiffMinutes(s, e) == e - s + 24 * 60
    ensures DiffMinutes(s, s) == 0
    ensures s != e ==> DiffMinutes(s, e) + DiffMinutes(e, s) == 24 * 60
  {
  }

  /**
   * For valid "HH:MM" times the text is "<h>h <m>m" with m < 60, h < 24 and
   * h * 60 + m equal to the wrapped difference.
   */
  lemma TimeDifferenceOfClocks(sh: string, sm: string, eh: string, em: string)
    requires IsClock(sh, sm) && IsClock(eh, em)
    ensures var diff := DiffMinutes(ClockValue(sh, sm), ClockValue(eh, em));
      && 0 <= diff < 24 * 60
      && diff / 60 < 24 && diff % 60 < 60 && (diff / 60) * 60 + diff % 60 == diff
      && CalculateTimeDifference(sh + ":" + sm, eh + ":" + em)
         == NatToString(diff / 60) + "h " + NatToString(diff % 60) + "m"
  {
    var s := ClockValue(sh, sm);
    var e := ClockValue(eh, em);
    ClockMinutesOf(sh, sm);
    ClockMinutesOf(eh, em);
    DiffMinutesOfDay(s, e);
    TimeDifferenceOfMinutes(sh + ":" + sm, eh + ":" + em, s, e);
  }

  lemma TimeDifferenceOfMinutes(start: string, end: string, s: int, e: int)
    requires ClockMinutes(start) == Some(s) && ClockMinutes(end) == Some(e)
    requires 0 <= DiffMinutes(s, e) < 24 * 60
    ensures var diff := DiffMinutes(s, e);
      CalculateTimeDifference(start, end) == NatToString(diff / 60) + "h " + NatToString(diff % 60) + "m"
  {
    var diff := DiffMinutes(s, e);
    assert IntToString(diff / 60) == NatToString(diff / 60);
    assert IntToString(JsRem(diff, 60)) == NatToString(diff % 60);
  }

  /** The same valid time at both ends gives "0h 0m". */
  lemma SameTimeNoDuration(hh: string, mm: string)
    requires IsClock(hh, mm)
    ensures CalculateTimeDifference(hh + ":" + mm, hh + ":" + mm) == "0h 0m"
  {
    TimeDifferenceOfClocks(hh, mm, hh, mm);
  }
}
