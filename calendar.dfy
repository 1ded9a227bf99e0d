/**
 * Integer time arithmetic used by the period planners: Go's truncating
 * millisecond-to-second conversion and the UTC (proleptic Gregorian)
 * calendar months that `time.Date(y, m, 1, 0, 0, 0, 0, loc)` and
 * `AddDate(0, 1, 0)` step through.
 *
 * A month is identified by its index `m = year * 12 + (month - 1)`,
 * so the month after `m` is `m + 1`.
 */
module Calendar {

  const MsPerSecond := 1000
  const SecondsPerDay := 86400
  const MsPerDay := 86_400_000

  /** Index of January 1970, the month that starts at Unix second 0. */
  const EpochMonth := 1970 * 12

  /** `ms / 1000` as Go computes it on int64: truncated toward zero. */
  function UnixSeconds(ms: int): (s: int)
    ensures 0 <= ms ==> 0 <= ms - s * 1000 < 1000
    ensures ms < 0 ==> -1000 < ms - s * 1000 <= 0
    ensures 0 <= ms ==> 0 <= s
  {
    if ms >= 0 then ms / 1000 else -((-ms) / 1000)
  }

  predicate IsLeapYear(y: int) {
    y % 4 == 0 && (y % 100 != 0 || y % 400 == 0)
  }

  function YearOf(m: int): int { m / 12 }

  /** Month of the year, 1 (January) to 12 (December). */
  function MonthOfYear(m: int): (mo: int)
    ensures 1 <= mo <= 12
  {
    m % 12 + 1
  }

  function DaysInMonth(m: int): (d: int)
    ensures 28 <= d <= 31
    ensures MonthOfYear(m) == 2 ==> d == (if IsLeapYear(YearOf(m)) then 29 else 28)
  {
    var mo := MonthOfYear(m);
    if mo == 2 then (if IsLeapYear(YearOf(m)) then 29 else 28)
    else if mo == 4 || mo == 6 || mo == 9 || mo == 11 then 30
    else 31
  }

  /** Leap years strictly before year `y`, counted from year 0 (floor division). */
  function LeapYearsBefore(y: int): int {
    (y - 1) / 4 - (y - 1) / 100 + (y - 1) / 400
  }

  /** Days from 1970-01-01 to January 1st of year `y`. */
  function DaysBeforeYear(y: int): int {
    365 * (y - 1970) + LeapYearsBefore(y) - LeapYearsBefore(1970)
  }

  /** Days from January 1st of `y` to the 1st of month `mo` of `y`. */
  function DaysBeforeMonth(y: int, mo: int): int
    requires 1 <= mo <= 12
  {
    var leap := if IsLeapYear(y) && mo > 2 then 1 else 0;
    leap + (match mo
      case 1 => 0   case 2 => 31  case 3 => 59  case 4 => 90
      case 5 => 120 case 6 => 151 case 7 => 181 case 8 => 212
      case 9 => 243 case 10 => 273 case 11 => 304 case _ => 334)
  }

  /**
   * Days from 1970-01-01 to the 1st of month `m`, obtained as Go's
   * `AddDate(0, 1, 0)` obtains it: by stepping one whole month at a time
   * from January 1970 (forwards or backwards).
   */
  function MonthStartDay(m: int): int
    decreases if m >= EpochMonth then m - EpochMonth else EpochMonth - m
  {
    if m == EpochMonth then 0
    else if m > EpochMonth then MonthStartDay(m - 1) + DaysInMonth(m - 1)
    else MonthStartDay(m + 1) - DaysInMonth(m)
  }

  /** The same day count written in closed form, from the year and the month. */
  function CivilDay(m: int): int {
    DaysBeforeYear(YearOf(m)) + DaysBeforeMonth(YearOf(m), MonthOfYear(m))
  }

  /** Unix second of the 1st of month `m`, 00:00:00 UTC. */
  function MonthStart(m: int): int {
    MonthStartDay(m) * 86400
  }

  /** The same instant in milliseconds (`UnixNano() / 1e6`). */
  function MonthStartMs(m: int): int {
    MonthStart(m) * 1000
  }

  lemma YearLength(y: int)
    ensures DaysBeforeYear(y + 1) == DaysBeforeYear(y) + (if IsLeapYear(y) then 366 else 365)
  {
    assert y / 4 - (y - 1) / 4 == (if y % 4 == 0 then 1 else 0);
    assert y / 100 - (y - 1) / 100 == (if y % 100 == 0 then 1 else 0);
    assert y / 400 - (y - 1) / 400 == (if y % 400 == 0 then 1 else 0);
  }

  lemma CivilDayStep(m: int)
    ensures CivilDay(m + 1) == CivilDay(m) + DaysInMonth(m)
  {
    if MonthOfYear(m) == 12 {
      assert YearOf(m + 1) == YearOf(m) + 1 && MonthOfYear(m + 1) == 1;
      YearLength(YearOf(m));
    } else {
      assert YearOf(m + 1) == YearOf(m) && MonthOfYear(m + 1) == MonthOfYear(m) + 1;
    }
  }

  /** January 1970 is day 0 of the civil-date formula too. */
  lemma CivilEpoch()
    ensures CivilDay(EpochMonth) == 0
  {
    assert YearOf(EpochMonth) == 1970 && MonthOfYear(EpochMonth) == 1;
    assert DaysBeforeYear(1970) == 0;
  }

  /** Stepping month by month from 1970 agrees with the civil-date formula. */
  lemma {:induction false} MonthStartDayIsCivil(m: int)
    ensures MonthStartDay(m) == CivilDay(m)
    decreases if m >= EpochMonth then m - EpochMonth else EpochMonth - m
  {
    if m == EpochMonth {
      CivilEpoch();
    } else if m > EpochMonth {
      MonthStartDayIsCivil(m - 1);
      CivilAgreesStep(m - 1);
    } else {
      MonthStartDayIsCivil(m + 1);
      CivilAgreesStep(m);
    }
  }

  /** Both day counts grow by the length of month `m`, so they agree at `m` exactly when they agree at `m + 1`. */
  lemma CivilAgreesStep(m: int)
    ensures MonthStartDay(m) == CivilDay(m) <==> MonthStartDay(m + 1) == CivilDay(m + 1)
  {
    NextMonthStart(m);
    CivilDayStep(m);
  }

  /** Adding one month to the 1st of month `m` lands on the 1st of `m + 1`. */
  lemma NextMonthStart(m: int)
    ensures MonthStartDay(m + 1) == MonthStartDay(m) + DaysInMonth(m)
    ensures MonthStart(m) < MonthStart(m + 1)
  {
  }

  lemma {:induction false} MonthStartIncreasing(a: int, b: int)
    requires a < b
    ensures MonthStart(a) < MonthStart(b)
    decreases b - a
  {
    NextMonthStart(a);
    if a + 1 < b {
      MonthStartIncreasing(a + 1, b);
    }
  }

  /** The month containing second `sec` is unique. */
  lemma {:induction false} MonthUnique(sec: int, a: int, b: int)
    requires MonthStart(a) <= sec < MonthStart(a + 1)
    requires MonthStart(b) <= sec < MonthStart(b + 1)
    ensures a == b
  {
    if a < b {
      if a + 1 < b { MonthStartIncreasing(a + 1, b); }
    } else if b < a {
      if b + 1 < a { MonthStartIncreasing(b + 1, a); }
    }
  }

  function SeekForward(sec: int, m: int): (r: int)
    requires MonthStart(m) <= sec
    ensures MonthStart(r) <= sec < MonthStart(r + 1)
    decreases sec - MonthStart(m)
  {
    NextMonthStart(m);
    if sec < MonthStart(m + 1) then m else SeekForward(sec, m + 1)
  }

  function SeekBackward(sec: int, m: int): (r: int)
    requires sec < MonthStart(m + 1)
    ensures MonthStart(r) <= sec < MonthStart(r + 1)
    decreases MonthStart(m + 1) - sec
  {
    NextMonthStart(m);
    if MonthStart(m) <= sec then m else SeekBackward(sec, m - 1)
  }

  /** The month whose first second is at or before `sec` and whose successor starts after it. */
  function MonthOf(sec: int): (m: int)
    ensures MonthStart(m) <= sec < MonthStart(m + 1)
  {
    assert MonthStart(EpochMonth) == 0;
    if 0 <= sec then SeekForward(sec, EpochMonth) else SeekBackward(sec, EpochMonth - 1)
  }

  /** Day of the month (1-based) of second `sec`, as `time.Time.Day()` reports it in UTC. */
  function DayOfMonth(sec: int): (d: int)
    ensures d >= 1
    ensures d == 1 <==> sec < MonthStart(MonthOf(sec)) + 86400
  {
    (sec - MonthStart(MonthOf(sec))) / 86400 + 1
  }
}
