/**
 * Local wall-clock calendar shared by the dashboard (JavaScript `Date`) and
 * the scraper (Python `datetime.date`). Instants are reduced to whole local
 * days: day 0 is 1970-01-01, a Thursday. Time zones, daylight saving and
 * milliseconds are not modelled.
 */
module Calendar {

  /** A proleptic Gregorian calendar date; `month` is 1-based. */
  datatype Civil = Civil(year: int, month: int, day: int)

  /**
   * The fields of a local JavaScript `Date`, as the five-argument constructor
   * `new Date(year, monthIndex, day, hours, minutes)` receives them after its
   * two-digit-year rule. Nothing here is normalised: `day == 45` or
   * `monthIndex == 98` are values the constructor accepts and rolls over.
   */
  datatype DateTime = DateTime(year: int, monthIndex: int, day: int, hour: int, minute: int)

  const MinutesPerDay := 1440

  function Min(a: int, b: int): int { if a < b then a else b }

  /**
   * Day number of a civil date (the days_from_civil algorithm of H. Hinnant,
   * years counted from March so that the leap day is last).
   */
  function DaysFromCivil(y: int, m: int, d: int): int
    requires 1 <= m <= 12
  {
    var y' := if m <= 2 then y - 1 else y;
    var era := y' / 400;
    var yoe := y' - era * 400;
    var mp := if m > 2 then m - 3 else m + 9;
    var doy := (153 * mp + 2) / 5 + d - 1;
    var doe := yoe * 365 + yoe / 4 - yoe / 100 + doy;
    era * 146097 + doe - 719468
  }

  /**
   * Splits a day of a 400-year era (counted from 1 March) into the year of
   * the era and the day of that year: centuries, then four-year blocks, then
   * years; the leap day is the last day of a block or of the era.
   */
  function YearOfEra(doe: int): (r: (int, int))
    requires 0 <= doe < 146097
    ensures 0 <= r.0 <= 399 && 0 <= r.1 <= 365
    ensures r.0 * 365 + r.0 / 4 - r.0 / 100 + r.1 == doe
    ensures r.1 == 365 ==> (r.0 + 1) % 4 == 0 && ((r.0 + 1) % 100 != 0 || r.0 == 399)
  {
    var cent := Min(doe / 36524, 3);
    var rest := doe - 36524 * cent;
    assert 0 <= rest <= 36524;
    assert cent < 3 ==> rest < 36524;
    var quad := rest / 1461;
    var s := rest % 1461;
    assert rest == 1461 * quad + s && 0 <= quad <= 24;
    var a := Min(s / 365, 3);
    assert a < 3 ==> s - 365 * a < 365;
    var yoe := 100 * cent + 4 * quad + a;
    assert yoe / 4 == 25 * cent + quad;
    assert yoe / 100 == cent;
    assert s - 365 * a == 365 ==> a == 3 && yoe + 1 == 100 * cent + 4 * (quad + 1);
    (yoe, s - 365 * a)
  }

  /** Splits a day of a March-based year into a March-based month index and a day of the month. */
  function MonthOfYear(doy: int): (r: (int, int))
    requires 0 <= doy <= 365
    ensures 0 <= r.0 <= 11 && 1 <= r.1 <= 31
    ensures (153 * r.0 + 2) / 5 + r.1 - 1 == doy
    ensures r.0 < 11 ==> r.1 <= (153 * (r.0 + 1) + 2) / 5 - (153 * r.0 + 2) / 5
    ensures r.0 == 11 ==> r.1 == doy - 336
  {
    var mp := (5 * doy + 2) / 153;
    (mp, doy - (153 * mp + 2) / 5 + 1)
  }

  /** The Gregorian leap-year rule: every fourth year, except centuries not divisible by 400. */
  predicate IsLeapYear(y: int)
  {
    y % 4 == 0 && (y % 100 != 0 || y % 400 == 0)
  }

  /** The number of days in month `m` of year `y`. */
  function DaysInMonth(y: int, m: int): (n: int)
    requires 1 <= m <= 12
    ensures 28 <= n <= 31 && (n == 29 <==> m == 2 && IsLeapYear(y))
  {
    if m == 2 then (if IsLeapYear(y) then 29 else 28)
    else if m == 4 || m == 6 || m == 9 || m == 11 then 30
    else 31
  }

  /** From March to January, the month lengths are the gaps between the March-based month starts. */
  lemma MarchMonthLength(y: int, mp: int)
    requires 0 <= mp < 11
    ensures (153 * (mp + 1) + 2) / 5 - (153 * mp + 2) / 5 == DaysInMonth(y, if mp < 10 then mp + 3 else mp - 9)
  {
  }

  lemma ShiftMod4(k: int, b: int) ensures (4 * k + b) % 4 == b % 4 {}
  lemma ShiftMod100(k: int, b: int) ensures (100 * k + b) % 100 == b % 100 {}
  lemma ShiftMod400(k: int, b: int) ensures (400 * k + b) % 400 == b % 400 {}

  /** The leap-year rule repeats every 400 years. */
  lemma LeapCycle(k: int, y: int)
    ensures IsLeapYear(400 * k + y) <==> IsLeapYear(y)
  {
    ShiftMod4(100 * k, y);
    ShiftMod100(4 * k, y);
    ShiftMod400(k, y);
  }

  /** The calendar year after a year of an era that ends in a leap day is a leap year. */
  lemma LeapYearOfEra(era: int, yoe: int)
    requires 0 <= yoe <= 399
    requires (yoe + 1) % 4 == 0 && ((yoe + 1) % 100 != 0 || yoe == 399)
    ensures IsLeapYear(era * 400 + yoe + 1)
  {
    LeapCycle(era, yoe + 1);
  }

  /**
   * A day of a March-based year lies within its month: the month lengths of
   * March to January, and February's 29th only when the year of the era is
   * followed by a leap year.
   */
  lemma MonthOfYearInMonth(era: int, yoe: int, doy: int)
    requires 0 <= yoe <= 399 && 0 <= doy <= 365
    requires doy == 365 ==> (yoe + 1) % 4 == 0 && ((yoe + 1) % 100 != 0 || yoe == 399)
    ensures var md := MonthOfYear(doy); var c := EraCivil(era, yoe, md.0, md.1);
      c.day <= DaysInMonth(c.year, c.month)
  {
    var md := MonthOfYear(doy);
    var c := EraCivil(era, yoe, md.0, md.1);
    if md.0 < 11 {
      MarchMonthLength(c.year, md.0);
    } else if doy == 365 {
      LeapYearOfEra(era, yoe);
    }
  }

  /** A shifted day number splits into whole eras and a day of the era. */
  lemma EraSplit(z': int)
    ensures z' == z' / 146097 * 146097 + z' % 146097 && 0 <= z' % 146097 < 146097
  {
  }

  /** A year of the era lies in its era. */
  lemma EraOfYear(era: int, yoe: int)
    requires 0 <= yoe <= 399
    ensures (era * 400 + yoe) / 400 == era
  {
  }

  /** The civil date of a year of an era, a March-based month index and a day of the month. */
  function EraCivil(era: int, yoe: int, mp: int, d: int): (c: Civil)
    requires 0 <= mp <= 11
    ensures 1 <= c.month <= 12 && c.day == d
  {
    var m := if mp < 10 then mp + 3 else mp - 9;
    Civil(if m <= 2 then era * 400 + yoe + 1 else era * 400 + yoe, m, d)
  }

  /** The civil date made of an era, a year of the era, a month index and a day has the day number they add up to. */
  lemma DaysOfEraDate(z: int, era: int, yoe: int, doy: int, mp: int, d: int)
    requires 0 <= yoe <= 399 && 0 <= mp <= 11
    requires z + 719468 == era * 146097 + (yoe * 365 + yoe / 4 - yoe / 100 + doy)
    requires (153 * mp + 2) / 5 + d - 1 == doy
    ensures DaysFromCivil(EraCivil(era, yoe, mp, d).year, EraCivil(era, yoe, mp, d).month, d) == z
  {
    var c := EraCivil(era, yoe, mp, d);
    var y' := if c.month <= 2 then c.year - 1 else c.year;
    assert y' == era * 400 + yoe;
    EraOfYear(era, yoe);
    assert y' - y' / 400 * 400 == yoe;
    assert (if c.month > 2 then c.month - 3 else c.month + 9) == mp;
  }

  /** Civil date of a day number. */
  function CivilFromDays(z: int): (c: Civil)
    ensures 1 <= c.month <= 12 && 1 <= c.day <= DaysInMonth(c.year, c.month)
    ensures DaysFromCivil(c.year, c.month, c.day) == z
  {
    var z' := z + 719468;
    EraSplit(z');
    var ydoy := YearOfEra(z' % 146097);
    var md := MonthOfYear(ydoy.1);
    DaysOfEraDate(z, z' / 146097, ydoy.0, ydoy.1, md.0, md.1);
    MonthOfYearInMonth(z' / 146097, ydoy.0, ydoy.1);
    EraCivil(z' / 146097, ydoy.0, md.0, md.1)
  }

  /** Within a month, day numbers advance with the day of the month. */
  lemma DayOfMonthShift(y: int, m: int, d: int)
    requires 1 <= m <= 12
    ensures DaysFromCivil(y, m, d) == DaysFromCivil(y, m, 1) + d - 1
  {
  }

  /**
   * ECMAScript MakeDay: the day number of `day` in month `monthIndex` (0-based,
   * any integer, rolled into the year by floor division) of `year`.
   */
  function MakeDay(year: int, monthIndex: int, day: int): (d: int)
    ensures 0 <= monthIndex < 12 ==> d == DaysFromCivil(year, monthIndex + 1, day)
  {
    assert 0 <= monthIndex < 12 ==> monthIndex / 12 == 0 && monthIndex % 12 == monthIndex;
    DayOfMonthShift(year + monthIndex / 12, monthIndex % 12 + 1, day);
    DaysFromCivil(year + monthIndex / 12, monthIndex % 12 + 1, 1) + day - 1
  }

  /**
   * The local day a `Date` falls on, i.e. the day number of the `Date` after
   * `setHours(0, 0, 0, 0)`: hours and minutes past 24:00 roll into later days.
   */
  function LocalDay(t: DateTime): (d: int)
    ensures 0 <= 60 * t.hour + t.minute < MinutesPerDay ==> d == MakeDay(t.year, t.monthIndex, t.day)
    ensures 0 <= 60 * t.hour + t.minute ==> d >= MakeDay(t.year, t.monthIndex, t.day)
  {
    MakeDay(t.year, t.monthIndex, t.day) + (60 * t.hour + t.minute) / MinutesPerDay
  }

  /** `Date.prototype.getDay`: 0 is Sunday, 1 Monday, ..., 6 Saturday. */
  function JsWeekday(d: int): (w: int)
    ensures 0 <= w <= 6
  {
    (d + 4) % 7
  }

  /** Python `date.weekday()`: 0 is Monday, ..., 6 Sunday. */
  function PyWeekday(d: int): (w: int)
    ensures 0 <= w <= 6
    ensures w == (JsWeekday(d) + 6) % 7
  {
    (d + 3) % 7
  }

  /** `setDate(x)` keeps year, month and time of day, so it moves the local day linearly in `x`. */
  lemma SetDateShiftsDay(t: DateTime, x: int)
    ensures LocalDay(t.(day := x)) == LocalDay(t) - t.day + x
  {
  }

  /** Day 0 is 1 January 1970, and 17 December 2025 is a Wednesday. */
  lemma ExampleDays()
    ensures DaysFromCivil(1970, 1, 1) == 0
    ensures DaysFromCivil(2025, 12, 17) == 20439 && JsWeekday(20439) == 3
  {
  }
}
