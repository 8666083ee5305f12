/**
 * The next-birthday rules of `calculateNextBirthdayDates` (lines 60-112),
 * written as functions of the birthday and of "today". A solar birthday comes
 * round on its month and day; a lunar one is resolved in the next lunar year
 * as a regular (never leap) month, turned into a solar date, and moved back a
 * day when its lunar day is past the length the code computes for the month.
 * Today's date and the solar calendar (JavaScript `Date`) are parameters.
 */
module NextBirthday {
  import opened JsSemantics
  import opened YearTable
  import opened LunarClock
  import opened Attributes

  /** A solar date as the code holds it: `sYear`, `sMonth` (1 .. 12), `sDay`. */
  datatype SolarDate = SolarDate(year: int, month: int, day: int)

  /** (y1, m1, d1) comes before (y2, m2, d2): year first, then month, then day. */
  predicate Before(y1: int, m1: int, d1: int, y2: int, m2: int, d2: int)
  {
    y1 < y2 || (y1 == y2 && (m1 < m2 || (m1 == m2 && d1 < d2)))
  }

  // ---------------------------------------------------------------------------
  // The solar path (lines 96-110)
  // ---------------------------------------------------------------------------

  /**
   * The year of the next solar birthday: this year, and the next one only when
   * today's month and day are strictly past the birthday's.
   */
  function NextSolarYear(birthMonth: int, birthDay: int, today: SolarDate): int
  {
    if today.month > birthMonth || (today.month == birthMonth && today.day > birthDay) then today.year + 1
    else today.year
  }

  /** The next solar birthday: the birthday's month and day, copied, in `NextSolarYear`. */
  function NextSolarBirthday(birthMonth: int, birthDay: int, today: SolarDate): (next: SolarDate)
    ensures next.month == birthMonth && next.day == birthDay
    ensures today.year <= next.year <= today.year + 1
  {
    SolarDate(NextSolarYear(birthMonth, birthDay, today), birthMonth, birthDay)
  }

  /**
   * The next solar birthday is the first date with the birthday's month and
   * day that is today or later: it is not before today, and the same month and
   * day a year earlier is.
   */
  lemma SolarNextIsFirst(birthMonth: int, birthDay: int, today: SolarDate)
    ensures var next := NextSolarBirthday(birthMonth, birthDay, today);
      !Before(next.year, next.month, next.day, today.year, today.month, today.day)
      && Before(next.year - 1, next.month, next.day, today.year, today.month, today.day)
  {
  }

  // ---------------------------------------------------------------------------
  // The lunar path (lines 60-93)
  // ---------------------------------------------------------------------------

  /**
   * The lunar year of the next lunar birthday: today's lunar year, and the
   * next one when the birthday's month and day are on or before today's lunar
   * month and day (today's leap flag plays no part).
   */
  function NextLunarYear(birthMonth: int, birthDay: int, today: LunarDate): int
  {
    if birthMonth < today.month || (birthMonth == today.month && birthDay <= today.day) then today.year + 1
    else today.year
  }

  /**
   * The next lunar birthday is the first date with the birthday's month and
   * day that is strictly after today: today is before it, and not after the
   * same month and day a year earlier.
   */
  lemma LunarNextIsFirst(birthMonth: int, birthDay: int, today: LunarDate)
    ensures var y := NextLunarYear(birthMonth, birthDay, today);
      Before(today.year, today.month, today.day, y, birthMonth, birthDay)
      && !Before(today.year, today.month, today.day, y - 1, birthMonth, birthDay)
  {
  }

  /** On the birthday itself the solar rule keeps this year and the lunar rule moves to the next. */
  lemma OnTheDay(m: int, d: int, solarToday: SolarDate, lunarToday: LunarDate)
    requires solarToday.month == m && solarToday.day == d
    requires lunarToday.month == m && lunarToday.day == d
    ensures NextSolarYear(m, d, solarToday) == solarToday.year
    ensures NextLunarYear(m, d, lunarToday) == lunarToday.year + 1
  {
  }

  /**
   * `getSolarByTimestamp(t)` reads `new Date(t)`, and `new Date(null)` is the
   * instant 0. A thrown ReferenceError would never reach it: the lunar path
   * asks for a regular month (line 84), which never throws.
   */
  function InstantOf(t: Timestamp): int
    requires !t.ReferenceError?
  {
    match t
    case Millis(ms) => ms
    case Null => 0
  }

  /**
   * The month length line 90 compares the day with:
   * `getLunarMonthDays(nextLunarYear, m, getLeapMonth(nextLunarYear))`, whose
   * third argument, a number, counts as "leap" whenever the year has a leap
   * month.
   */
  function ClampLength(y: int, m: int): (n: int)
    ensures n == 29 || n == 30
    ensures LeapMonth(y) != 0 && m == LeapMonth(y) ==> n == LeapLength(y)
    ensures !(LeapMonth(y) != 0 && m == LeapMonth(y)) ==> n == RegularLength(y, m)
  {
    MonthDays(y, m, LeapMonth(y) != 0)
  }

  /**
   * The next lunar birthday as a solar date: lunar (year, m, d) taken as a
   * regular month, turned into a timestamp and a solar date by `toSolar`
   * (standing for `getSolarByTimestamp`), moved one day back when `d` exceeds
   * `ClampLength`.
   */
  function NextLunarBirthday(birthMonth: int, birthDay: int, today: LunarDate, toSolar: int -> SolarDate): SolarDate
  {
    var y := NextLunarYear(birthMonth, birthDay, today);
    var solar := toSolar(InstantOf(LunarToTimestamp(y, birthMonth, birthDay, false)));
    if birthDay > ClampLength(y, birthMonth) then solar.(day := solar.day - 1) else solar
  }

  /**
   * The result is the solar date of the lunar birthday in the next lunar year,
   * its day number one less exactly when the lunar day exceeds `ClampLength`;
   * nothing else is changed.
   */
  lemma LunarClamp(birthMonth: int, birthDay: int, today: LunarDate, toSolar: int -> SolarDate)
    ensures var y := NextLunarYear(birthMonth, birthDay, today);
      var solar := toSolar(InstantOf(LunarToTimestamp(y, birthMonth, birthDay, false)));
      var next := NextLunarBirthday(birthMonth, birthDay, today, toSolar);
      next.year == solar.year && next.month == solar.month
      && (next.day == solar.day - 1 <==> birthDay > ClampLength(y, birthMonth))
      && (next.day == solar.day <==> birthDay <= ClampLength(y, birthMonth))
  {
  }

  /**
   * A day that the month has (by `ClampLength`) in a year of the table is
   * taken as it is: the solar date of its own timestamp.
   */
  lemma LunarNoClamp(birthMonth: int, birthDay: int, today: LunarDate, toSolar: int -> SolarDate)
    requires InRange(NextLunarYear(birthMonth, birthDay, today)) && 1 <= birthMonth <= 12
    requires birthDay <= ClampLength(NextLunarYear(birthMonth, birthDay, today), birthMonth)
    ensures var y := NextLunarYear(birthMonth, birthDay, today);
      NextLunarBirthday(birthMonth, birthDay, today, toSolar)
      == toSolar(StartTime + LunarOffset(y, birthMonth, birthDay, false) * MsPerDay)
  {
  }

  /**
   * The 30th of a month of 29 days (one not doubled by a leap month) in a
   * year before 2100 is resolved as the solar date of the next day, the 1st
   * of the following month, with one taken off its day number: the solar day
   * of the 29th when both fall in the same solar month, and day 0 when that
   * next day is the 1st of a solar month.
   */
  lemma ThirtiethClamped(birthMonth: int, today: LunarDate, toSolar: int -> SolarDate)
    requires var y := NextLunarYear(birthMonth, 30, today);
      MinYear <= y < MaxYear && 1 <= birthMonth <= 12
      && RegularLength(y, birthMonth) == 29 && birthMonth != LeapMonth(y)
    ensures var y := NextLunarYear(birthMonth, 30, today);
      var solar := toSolar(StartTime + (LunarOffset(y, birthMonth, 29, false) + 1) * MsPerDay);
      NextLunarBirthday(birthMonth, 30, today, toSolar) == solar.(day := solar.day - 1)
      && (solar.day == 1 ==> NextLunarBirthday(birthMonth, 30, today, toSolar).day == 0)
  {
    var y := NextLunarYear(birthMonth, 30, today);
    ThirtiethOfShortMonth(y, birthMonth);
  }

  /**
   * When the birthday's month is the next year's leap month, the clamp goes by
   * the leap month's length although the date was resolved in the regular
   * month: a 30th whose regular month has 30 days is still moved back a day
   * when the leap month has 29.
   */
  lemma LeapMonthClamp(birthMonth: int, today: LunarDate, toSolar: int -> SolarDate)
    requires var y := NextLunarYear(birthMonth, 30, today);
      LeapMonth(y) != 0 && birthMonth == LeapMonth(y) && LeapLength(y) == 29
    ensures var y := NextLunarYear(birthMonth, 30, today);
      var solar := toSolar(InstantOf(LunarToTimestamp(y, birthMonth, 30, false)));
      NextLunarBirthday(birthMonth, 30, today, toSolar) == solar.(day := solar.day - 1)
  {
  }

  // ---------------------------------------------------------------------------
  // The texts of solar dates (lines 52 and 114)
  // ---------------------------------------------------------------------------

  /** `getDateString(sYear, sMonth, sDay)`: the text written as `nextBirthday`. */
  function FormatNextBirthday(next: SolarDate): string
  {
    DateString([next.year, next.month, next.day])
  }

  /**
   * `${sYear}-${pad(sMonth)}-${pad(sDay)}` (line 52), the solar birthday
   * written from a lunar one; the year is not padded.
   */
  function SolarText(s: SolarDate): string
  {
    IntToString(s.year) + "-" + Field(s.month) + "-" + Field(s.day)
  }

  /** From year 10 on, the two ways of writing a solar date agree. */
  lemma SolarTextIsDateString(s: SolarDate)
    requires s.year >= 10
    ensures SolarText(s) == FormatNextBirthday(s)
  {
    assert DateString([s.year, s.month, s.day]) == Field(s.year) + "-" + DateString([s.month, s.day]);
    assert DateString([s.month, s.day]) == Field(s.month) + "-" + DateString([s.day]);
    assert NatToString(s.year) == NatToString(s.year / 10) + [DigitChar(s.year % 10)];
    assert [s.year, s.month, s.day][1..] == [s.month, s.day];
    assert [s.month, s.day][1..] == [s.day];
  }
}
