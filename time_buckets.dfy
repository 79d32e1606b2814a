/** Time buckets: conversions between timestamps (seconds since 1970-01-01
    UTC) and day, week, month and year indices, as the dashboard computes
    them, over the proleptic Gregorian calendar that JavaScript's Date and
    Python's datetime share. */
module TimeBuckets {

  // ---------------------------------------------------------------------
  // The civil calendar

  datatype Date = Date(year: int, month: int, day: int)

  predicate IsLeap(y: int)
  {
    y % 4 == 0 && (y % 100 != 0 || y % 400 == 0)
  }

  function YearLength(y: int): int
  {
    if IsLeap(y) then 366 else 365
  }

  /** The number of leap years in [0, y) (negative when y < 0). */
  function LeapsBefore(y: int): int
  {
    (y + 3) / 4 - (y + 99) / 100 + (y + 399) / 400
  }

  /** Days from 1970-01-01 to January 1st of year y. */
  function DaysBeforeYear(y: int): int
  {
    365 * (y - 1970) + LeapsBefore(y) - LeapsBefore(1970)
  }

  lemma LeapsStep(y: int)
    ensures LeapsBefore(y + 1) == LeapsBefore(y) + (if IsLeap(y) then 1 else 0)
  {
    StepDiv4(y);
    StepDiv100(y);
    StepDiv400(y);
    if y % 100 == 0 { Mod100Mod4(y); }
    if y % 400 == 0 { Mod400Mod100(y); }
  }

  lemma StepDiv4(y: int)
    ensures (y + 4) / 4 - (y + 3) / 4 == (if y % 4 == 0 then 1 else 0)
  {
  }

  lemma StepDiv100(y: int)
    ensures (y + 100) / 100 - (y + 99) / 100 == (if y % 100 == 0 then 1 else 0)
  {
  }

  lemma StepDiv400(y: int)
    ensures (y + 400) / 400 - (y + 399) / 400 == (if y % 400 == 0 then 1 else 0)
  {
  }

  lemma Mod100Mod4(y: int)
    requires y % 100 == 0
    ensures y % 4 == 0
  {
    assert y == 100 * (y / 100);
  }

  lemma Mod400Mod100(y: int)
    requires y % 400 == 0
    ensures y % 100 == 0
  {
    assert y == 400 * (y / 400);
  }

  /** January 1st of the next year comes one year length later. */
  lemma YearStep(y: int)
    ensures DaysBeforeYear(y + 1) == DaysBeforeYear(y) + YearLength(y)
  {
    LeapsStep(y);
  }

  /** The Gregorian calendar repeats every 400 years, 146097 days. */
  lemma EraStep(y: int)
    ensures DaysBeforeYear(y + 400) == DaysBeforeYear(y) + 146097
  {
    assert (y + 403) / 4 == (y + 3) / 4 + 100;
    assert (y + 499) / 100 == (y + 99) / 100 + 4;
    assert (y + 799) / 400 == (y + 399) / 400 + 1;
  }

  lemma {:induction false} EraShift(y: int, n: int)
    ensures DaysBeforeYear(y + 400 * n) == DaysBeforeYear(y) + 146097 * n
    decreases if n < 0 then -n else n
  {
    if n > 0 {
      EraShift(y, n - 1);
      EraStep(y + 400 * (n - 1));
    } else if n < 0 {
      EraShift(y, n + 1);
      EraStep(y + 400 * n);
    }
  }

  lemma {:induction false} DaysBeforeYearMonotone(a: int, b: int)
    requires a <= b
    ensures DaysBeforeYear(a) + 365 * (b - a) <= DaysBeforeYear(b)
    decreases b - a
  {
    if a < b {
      DaysBeforeYearMonotone(a, b - 1);
      YearStep(b - 1);
    }
  }

  /** The year whose days [DaysBeforeYear(y), DaysBeforeYear(y + 1)) hold
      the given day-of-era, searched from year y of a 400-year era. */
  function FindYear(doe: int, y: int): int
    requires 0 <= y < 400
    requires DaysBeforeYear(y) - DaysBeforeYear(0) <= doe < 146097
    decreases 400 - y
  {
    EraStep(0);
    if doe < DaysBeforeYear(y + 1) - DaysBeforeYear(0) then y
    else
      assert y + 1 < 400 by {
        if y + 1 == 400 { assert false; }
      }
      FindYear(doe, y + 1)
  }

  /** The search ends in the year that holds doe, at or after year y. */
  lemma {:induction false} FindYearSpec(doe: int, y: int)
    requires 0 <= y < 400
    requires DaysBeforeYear(y) - DaysBeforeYear(0) <= doe < 146097
    ensures y <= FindYear(doe, y) < 400
    ensures DaysBeforeYear(FindYear(doe, y)) - DaysBeforeYear(0) <= doe < DaysBeforeYear(FindYear(doe, y) + 1) - DaysBeforeYear(0)
    decreases 400 - y
  {
    EraStep(0);
    if doe >= DaysBeforeYear(y + 1) - DaysBeforeYear(0) {
      assert y + 1 < 400 by {
        if y + 1 == 400 { assert false; }
      }
      FindYearSpec(doe, y + 1);
    }
  }

  /** The year that contains the given day (days since 1970-01-01): the
      400-year era of the day, then the year within the era. */
  function YearOf(days: int): int
  {
    var dz := days - DaysBeforeYear(0);
    EraDivision(dz);
    400 * (dz / 146097) + FindYear(dz % 146097, 0)
  }

  lemma YearOfSpec(days: int)
    ensures DaysBeforeYear(YearOf(days)) <= days < DaysBeforeYear(YearOf(days) + 1)
  {
    var dz := days - DaysBeforeYear(0);
    EraDivision(dz);
    FindYearSpec(dz % 146097, 0);
    EraYear(days, dz / 146097, dz % 146097, FindYear(dz % 146097, 0), YearOf(days));
  }

  lemma EraDivision(dz: int)
    ensures dz == 146097 * (dz / 146097) + dz % 146097 && 0 <= dz % 146097 < 146097
  {
  }

  /** Year r of era `era` holds the day whose offset into that era is doe. */
  lemma EraYear(days: int, era: int, doe: int, r: int, y: int)
    requires y == 400 * era + r
    requires days - DaysBeforeYear(0) == 146097 * era + doe
    requires DaysBeforeYear(r) - DaysBeforeYear(0) <= doe < DaysBeforeYear(r + 1) - DaysBeforeYear(0)
    ensures DaysBeforeYear(y) <= days < DaysBeforeYear(y + 1)
  {
    EraShift(r, era);
    EraShift(r + 1, era);
  }

  /** Only one year contains a given day. */
  lemma YearUnique(days: int, y: int)
    requires DaysBeforeYear(y) <= days < DaysBeforeYear(y + 1)
    ensures YearOf(days) == y
  {
    YearOfSpec(days);
    var x := YearOf(days);
    if x < y {
      DaysBeforeYearMonotone(x + 1, y);
    } else if y < x {
      DaysBeforeYearMonotone(y + 1, x);
    }
  }

  function DaysInMonth(y: int, m: int): int
    requires 1 <= m <= 12
  {
    if m == 2 then (if IsLeap(y) then 29 else 28)
    else if m == 4 || m == 6 || m == 9 || m == 11 then 30
    else 31
  }

  /** Days from January 1st of year y to the first of month m (1-based). */
  function DaysBeforeMonth(y: int, m: int): int
    requires 1 <= m <= 12
  {
    (if m == 1 then 0
     else if m == 2 then 31
     else if m == 3 then 59
     else if m == 4 then 90
     else if m == 5 then 120
     else if m == 6 then 151
     else if m == 7 then 181
     else if m == 8 then 212
     else if m == 9 then 243
     else if m == 10 then 273
     else if m == 11 then 304
     else 334)
    + (if m > 2 && IsLeap(y) then 1 else 0)
  }

  lemma MonthStep(y: int, m: int)
    requires 1 <= m <= 12
    ensures m < 12 ==> DaysBeforeMonth(y, m + 1) == DaysBeforeMonth(y, m) + DaysInMonth(y, m)
    ensures m == 12 ==> DaysBeforeMonth(y, m) + DaysInMonth(y, m) == YearLength(y)
  {
  }

  /** Month r is the one whose days hold the given day of the year. */
  function FindMonth(y: int, doy: int, m: int): int
    requires 1 <= m <= 12
    requires DaysBeforeMonth(y, m) <= doy < YearLength(y)
    decreases 12 - m
  {
    MonthStep(y, m);
    if doy < DaysBeforeMonth(y, m) + DaysInMonth(y, m) then m
    else FindMonth(y, doy, m + 1)
  }

  /** The search ends in the month that holds doy, at or after month m. */
  lemma {:induction false} FindMonthSpec(y: int, doy: int, m: int)
    requires 1 <= m <= 12
    requires DaysBeforeMonth(y, m) <= doy < YearLength(y)
    ensures m <= FindMonth(y, doy, m) <= 12
    ensures DaysBeforeMonth(y, FindMonth(y, doy, m)) <= doy
         < DaysBeforeMonth(y, FindMonth(y, doy, m)) + DaysInMonth(y, FindMonth(y, doy, m))
    decreases 12 - m
  {
    MonthStep(y, m);
    if doy >= DaysBeforeMonth(y, m) + DaysInMonth(y, m) {
      FindMonthSpec(y, doy, m + 1);
    }
  }

  lemma MonthUnique(y: int, doy: int, m: int, r: int)
    requires 1 <= m <= 12 && 1 <= r <= 12
    requires DaysBeforeMonth(y, m) <= doy < DaysBeforeMonth(y, m) + DaysInMonth(y, m)
    requires DaysBeforeMonth(y, r) <= doy < DaysBeforeMonth(y, r) + DaysInMonth(y, r)
    ensures m == r
  {
  }

  predicate ValidDate(d: Date)
  {
    1 <= d.month <= 12 && 1 <= d.day <= DaysInMonth(d.year, d.month)
  }

  /** Days from 1970-01-01 to the given date; month 1..12, any day
      (a day past the month's end runs on into the next months). */
  function DayIndex(year: int, month: int, day: int): int
    requires 1 <= month <= 12
  {
    DaysBeforeYear(year) + DaysBeforeMonth(year, month) + day - 1
  }

  /** The UTC calendar date of a day index. */
  function Civil(days: int): Date
  {
    var y := YearOf(days);
    YearOfSpec(days);
    YearStep(y);
    var doy := days - DaysBeforeYear(y);
    FindMonthSpec(y, doy, 1);
    var m := FindMonth(y, doy, 1);
    Date(y, m, doy - DaysBeforeMonth(y, m) + 1)
  }

  /** Civil gives a valid date whose day index is the given day. */
  lemma CivilSpec(days: int)
    ensures ValidDate(Civil(days))
    ensures DayIndex(Civil(days).year, Civil(days).month, Civil(days).day) == days
  {
    var y := YearOf(days);
    YearOfSpec(days);
    YearStep(y);
    FindMonthSpec(y, days - DaysBeforeYear(y), 1);
  }

  /** A valid date falls within its year. */
  lemma DateWithinYear(d: Date)
    requires ValidDate(d)
    ensures 0 <= DaysBeforeMonth(d.year, d.month) + d.day - 1 < YearLength(d.year)
  {
    MonthStep(d.year, 12);
    assert DaysBeforeMonth(d.year, d.month) + DaysInMonth(d.year, d.month) <= YearLength(d.year);
  }

  /** A valid date is the calendar date of its own day index. */
  lemma CivilOfDayIndex(d: Date)
    requires ValidDate(d)
    ensures Civil(DayIndex(d.year, d.month, d.day)) == d
  {
    var days := DayIndex(d.year, d.month, d.day);
    DateWithinYear(d);
    YearStep(d.year);
    YearUnique(days, d.year);
    CivilSpec(days);
    var c := Civil(days);
    MonthUnique(d.year, days - DaysBeforeYear(d.year), d.month, c.month);
  }

  /** The first day of the month after (year, month). */
  lemma NextMonthStart(year: int, month: int)
    requires 1 <= month <= 12
    ensures month < 12 ==> DayIndex(year, month + 1, 1) == DayIndex(year, month, 1) + DaysInMonth(year, month)
    ensures month == 12 ==> DayIndex(year + 1, 1, 1) == DayIndex(year, month, 1) + DaysInMonth(year, month)
  {
    MonthStep(year, month);
    YearStep(year);
  }

  // ---------------------------------------------------------------------
  // Date.UTC and the "%Y-%m-%d" parser

  /** Date.UTC(year, monthIndex, day) in days: a month index outside 0..11
      moves into the neighbouring years (-1 is December of the year before). */
  function UtcDays(year: int, monthIndex: int, day: int): int
  {
    DayIndex(year + monthIndex / 12, monthIndex % 12 + 1, 1) + day - 1
  }

  /** The years the model parses: `%Y` reads at most four digits and no
      sign, and below year 100 d3's parser sets the full year after the
      month has been resolved, so the month-0 overflow months_to_timestamp
      relies on would stay in the same year. */
  predicate ParsableYear(year: int)
  {
    100 <= year <= 9999
  }

  /** `parseTime(year + "-" + month + "-" + day)`: seconds since the epoch. */
  function ParseTime(year: int, month: int, day: int): int
  {
    DaysToTimestamp(UtcDays(year, month - 1, day))
  }

  /** `parseTime("1970-01-01")` is 0: the offset makes the epoch the origin. */
  lemma ParseTimeEpoch()
    ensures ParseTime(1970, 1, 1) == 0
  {
  }

  /** For a valid date, parsing its text gives the start of its day. */
  lemma ParseTimeValid(d: Date)
    requires ValidDate(d)
    ensures ParseTime(d.year, d.month, d.day) == DaysToTimestamp(DayIndex(d.year, d.month, d.day))
  {
  }

  // ---------------------------------------------------------------------
  // Bucket conversions

  function TimestampToDays(ts: int): (days: int)
    ensures DaysToTimestamp(days) <= ts < DaysToTimestamp(days + 1)
  {
    ts / 86400
  }

  /** The first second of day `days`: a day has 86400 seconds (no leap seconds). */
  function DaysToTimestamp(days: int): int
  {
    days * 86400
  }

  lemma DaysRoundTrip(days: int)
    ensures TimestampToDays(DaysToTimestamp(days)) == days
  {
  }

  lemma DaysToTimestampMonotone(a: int, b: int)
    requires a <= b
    ensures DaysToTimestamp(a) <= DaysToTimestamp(b)
  {
  }

  /** A timestamp inside a day inside the days [lo, hi) lies inside the
      seconds of those days. */
  lemma DaysBracket(ts: int, days: int, lo: int, hi: int)
    requires lo <= days < hi
    requires DaysToTimestamp(days) <= ts < DaysToTimestamp(days + 1)
    ensures DaysToTimestamp(lo) <= ts < DaysToTimestamp(hi)
  {
  }

  function TimestampToWeeks(ts: int): (weeks: int)
    ensures WeeksToTimestamp(weeks) <= ts < WeeksToTimestamp(weeks + 1)
  {
    (ts / 86400) / 7
  }

  function WeeksToTimestamp(weeks: int): int
  {
    weeks * 604800
  }

  lemma WeeksRoundTrip(weeks: int)
    ensures TimestampToWeeks(WeeksToTimestamp(weeks)) == weeks
  {
  }

  /** Months since January 1970 plus one: January 1970 is month 1. */
  function TimestampToMonths(ts: int): int
  {
    var date := Civil(TimestampToDays(ts));
    var mIndex := date.year * 12 + (date.month - 1) + 1;
    mIndex - (1970 * 12 + 1) + 1
  }

  /** The first second of month `months`. For a multiple of 12 the printed
      month number is 0, which Date.UTC reads as December of the year before. */
  function MonthsToTimestamp(months: int): int
  {
    var dY := months / 12;
    var year := 1970 + dY;
    var month := months - 12 * dY;
    ParseTime(year, month, 1)
  }

  /** The year in which month `months` lies. */
  function YearOfMonths(months: int): int
  {
    1970 + (months - 1) / 12
  }

  /** Month m (1..12) of year y is month 12 * (y - 1970) + m and starts on
      its first day; December takes the month-0 path. */
  lemma MonthsToTimestampAt(y: int, m: int, mo: int)
    requires 1 <= m <= 12 && mo == 12 * (y - 1970) + m
    ensures MonthsToTimestamp(mo) == DaysToTimestamp(DayIndex(y, m, 1))
  {
    MonthsDiv(y, m, mo);
    if m == 12 {
      assert MonthsToTimestamp(mo) == ParseTime(y + 1, 0, 1);
      assert UtcDays(y + 1, -1, 1) == DayIndex(y, 12, 1);
    } else {
      assert MonthsToTimestamp(mo) == ParseTime(y, m, 1);
      assert (m - 1) / 12 == 0 && (m - 1) % 12 == m - 1;
    }
  }

  /** The year and the printed month number of month 12 * (y - 1970) + m. */
  lemma MonthsDiv(y: int, m: int, mo: int)
    requires 1 <= m <= 12 && mo == 12 * (y - 1970) + m
    ensures m < 12 ==> mo / 12 == y - 1970
    ensures m == 12 ==> mo / 12 == y + 1 - 1970
  {
  }

  lemma MonthsSplit(months: int)
    ensures var y, m := YearOfMonths(months), (months - 1) % 12 + 1;
            1 <= m <= 12 && months == 12 * (y - 1970) + m
  {
  }

  function TimestampToYears(ts: int): int
  {
    Civil(TimestampToDays(ts)).year
  }

  function YearsToTimestamp(year: int): int
  {
    ParseTime(year, 1, 1)
  }

  /** The month index of a timestamp inside a valid date. */
  lemma MonthsOfDate(d: Date)
    requires ValidDate(d)
    ensures TimestampToMonths(DaysToTimestamp(DayIndex(d.year, d.month, d.day)))
         == 12 * (d.year - 1970) + d.month
  {
    DaysRoundTrip(DayIndex(d.year, d.month, d.day));
    CivilOfDayIndex(d);
  }

  /** Month indices survive the trip to a timestamp and back. */
  lemma MonthsRoundTrip(months: int)
    requires ParsableYear(YearOfMonths(months))
    ensures TimestampToMonths(MonthsToTimestamp(months)) == months
  {
    MonthsSplit(months);
    var y, m := YearOfMonths(months), (months - 1) % 12 + 1;
    MonthsToTimestampAt(y, m, months);
    MonthsOfDate(Date(y, m, 1));
  }

  /** The first seconds of month m of year y and of the month after it. */
  lemma MonthBounds(y: int, m: int, mo: int)
    requires 1 <= m <= 12 && mo == 12 * (y - 1970) + m
    ensures MonthsToTimestamp(mo) == DaysToTimestamp(DayIndex(y, m, 1))
    ensures MonthsToTimestamp(mo + 1) == DaysToTimestamp(DayIndex(y, m, 1) + DaysInMonth(y, m))
  {
    MonthsToTimestampAt(y, m, mo);
    NextMonthStart(y, m);
    if m < 12 {
      MonthsToTimestampAt(y, m + 1, mo + 1);
    } else {
      MonthsToTimestampAt(y + 1, 1, mo + 1);
    }
  }

  /** A timestamp inside a day of month m of year y lies inside that
      month's seconds. */
  lemma MonthHolds(ts: int, days: int, y: int, m: int, mo: int)
    requires 1 <= m <= 12 && mo == 12 * (y - 1970) + m
    requires DaysToTimestamp(days) <= ts < DaysToTimestamp(days + 1)
    requires DayIndex(y, m, 1) <= days < DayIndex(y, m, 1) + DaysInMonth(y, m)
    ensures MonthsToTimestamp(mo) <= ts < MonthsToTimestamp(mo + 1)
  {
    MonthBounds(y, m, mo);
    var start := DayIndex(y, m, 1);
    DaysBracket(ts, days, start, start + DaysInMonth(y, m));
  }

  /** A timestamp lies in the month that TimestampToMonths names. */
  lemma MonthsBracket(ts: int)
    ensures MonthsToTimestamp(TimestampToMonths(ts)) <= ts < MonthsToTimestamp(TimestampToMonths(ts) + 1)
  {
    var days := TimestampToDays(ts);
    var d := Civil(days);
    CivilMonth(ts, days, d);
    MonthHolds(ts, days, d.year, d.month, TimestampToMonths(ts));
  }

  /** The month index of a timestamp, and the days of its month. */
  lemma CivilMonth(ts: int, days: int, d: Date)
    requires days == TimestampToDays(ts) && d == Civil(days)
    ensures TimestampToMonths(ts) == 12 * (d.year - 1970) + d.month
    ensures ValidDate(d)
      && DayIndex(d.year, d.month, 1) <= days < DayIndex(d.year, d.month, 1) + DaysInMonth(d.year, d.month)
  {
    CivilSpec(days);
  }

  /** Years survive the trip to a timestamp and back. */
  lemma YearsRoundTrip(year: int)
    requires ParsableYear(year)
    ensures TimestampToYears(YearsToTimestamp(year)) == year
  {
    var d := Date(year, 1, 1);
    assert YearsToTimestamp(year) == DaysToTimestamp(DayIndex(year, 1, 1));
    DaysRoundTrip(DayIndex(year, 1, 1));
    CivilOfDayIndex(d);
  }

  lemma YearsToTimestampIsYearStart(year: int)
    ensures YearsToTimestamp(year) == DaysToTimestamp(DaysBeforeYear(year))
  {
  }

  /** The day of a timestamp lies in the year TimestampToYears names. */
  lemma YearOfTimestamp(ts: int)
    ensures DaysBeforeYear(TimestampToYears(ts)) <= TimestampToDays(ts) < DaysBeforeYear(TimestampToYears(ts) + 1)
  {
    CivilYear(TimestampToDays(ts));
    YearOfSpec(TimestampToDays(ts));
  }

  lemma CivilYear(days: int)
    ensures Civil(days).year == YearOf(days)
  {
  }

  /** A timestamp lies in the year that TimestampToYears names. */
  lemma YearsBracket(ts: int)
    ensures YearsToTimestamp(TimestampToYears(ts)) <= ts < YearsToTimestamp(TimestampToYears(ts) + 1)
  {
    YearOfTimestamp(ts);
    YearHolds(ts, TimestampToDays(ts), TimestampToYears(ts));
  }

  /** A timestamp inside a day of year y lies inside that year's seconds. */
  lemma YearHolds(ts: int, days: int, y: int)
    requires DaysToTimestamp(days) <= ts < DaysToTimestamp(days + 1)
    requires DaysBeforeYear(y) <= days < DaysBeforeYear(y + 1)
    ensures YearsToTimestamp(y) <= ts < YearsToTimestamp(y + 1)
  {
    YearsToTimestampIsYearStart(y);
    YearsToTimestampIsYearStart(y + 1);
    DaysBracket(ts, days, DaysBeforeYear(y), DaysBeforeYear(y + 1));
  }

  /** Each month starts strictly after the month before it. */
  lemma MonthsToTimestampIncreasing(months: int)
    ensures MonthsToTimestamp(months) < MonthsToTimestamp(months + 1)
  {
    MonthsSplit(months);
    var y, m := YearOfMonths(months), (months - 1) % 12 + 1;
    MonthBounds(y, m, months);
    assert DaysInMonth(y, m) >= 28;
  }

  /** Each year starts strictly after the year before it. */
  lemma YearsToTimestampIncreasing(year: int)
    ensures YearsToTimestamp(year) < YearsToTimestamp(year + 1)
  {
    YearsToTimestampIsYearStart(year);
    YearsToTimestampIsYearStart(year + 1);
    YearStep(year);
    var lo := DaysBeforeYear(year);
    DaysBracket(DaysToTimestamp(lo), lo, lo, DaysBeforeYear(year + 1));
  }
}
