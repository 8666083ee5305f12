/**
 * Conversion between lunar dates and the day axis that starts at
 * `startTime` = 1900-01-30 00:00 UTC (`getTimestampByLunar`,
 * `getLunarByTimestamp`). Day offset 1 is lunar 1900, month 1, day 1.
 *
 * Within a year the months run 1, 2, .., L, L (leap), L + 1, .., 12, where L is
 * the year's leap month: the leap month sits right after the regular month it
 * doubles.
 */
module LunarClock {
  import opened JsSemantics
  import opened YearTable

  /** `Date.UTC(1900, 0, 30, 0, 0, 0)`, in milliseconds since 1970-01-01 UTC. */
  const StartTime: int := -2206483200000

  /** Milliseconds in a day. */
  const MsPerDay: int := 86400000

  datatype LunarDate = LunarDate(year: int, month: int, day: int, isLeap: bool)

  /**
   * What `getTimestampByLunar` produces: a timestamp in milliseconds, `null`,
   * or the ReferenceError its leap path throws.
   */
  datatype Timestamp = Millis(ms: int) | Null | ReferenceError

  /** A date the calendar has: a leap month only where the year has one, a day within its month. */
  predicate Valid(d: LunarDate)
  {
    InRange(d.year) && 1 <= d.month <= 12
    && (d.isLeap ==> d.month == LeapMonth(d.year))
    && 1 <= d.day <= MonthDays(d.year, d.month, d.isLeap)
  }

  // ---------------------------------------------------------------------------
  // The offset sum (lines 264-276)
  // ---------------------------------------------------------------------------

  /** The days of the lunar years 1900 .. y - 1. */
  function YearsBefore(y: int): (n: int)
    ensures y <= MinYear ==> n == 0
    ensures n >= 0
    decreases y - MinYear
  {
    if y <= MinYear then 0 else YearsBefore(y - 1) + YearDays(y - 1)
  }

  /**
   * The days of year `y` before month `m` (its leap month when `isLeap`): the
   * regular months before it, the regular month `m` itself when the leap month
   * is meant, and the leap month when `m` comes after it.
   */
  function MonthsBefore(y: int, m: int, isLeap: bool): int
  {
    var leap := LeapMonth(y);
    RegularBefore(y, m)
    + (if isLeap && m >= 1 && m == leap then RegularLength(y, m) else 0)
    + (if leap != 0 && m > leap then LeapLength(y) else 0)
  }

  /** The day offset of lunar date (y, m, d, isLeap) from `startTime`. */
  function LunarOffset(y: int, m: int, d: int, isLeap: bool): int
  {
    YearsBefore(y) + MonthsBefore(y, m, isLeap) + d
  }

  function OffsetOf(d: LunarDate): int
  {
    LunarOffset(d.year, d.month, d.day, d.isLeap)
  }

  /**
   * The sum of lines 264-276: the lengths of all earlier years, of the earlier
   * months of the year (through month `m` itself when its leap month is
   * meant), of the leap month when `m` follows it, and the day.
   */
  method OffsetSum(lYear: int, lMonth: int, lDay: int, isLeap: bool) returns (offset: int)
    ensures offset == LunarOffset(lYear, lMonth, lDay, isLeap)
  {
    var leapMonth := LeapMonth(lYear);
    var data := Data(lYear);
    offset := YearsSum(lYear);
    var months := MonthsSum(lYear, lMonth, isLeap);
    offset := offset + months;
    if leapMonth != 0 && lMonth > leapMonth {
      offset := offset + if BitSet(data, 16) then 30 else 29;
    }
    offset := offset + lDay;
  }

  /** The loop of lines 266-268: the lengths of the years 1900 .. lYear - 1. */
  method YearsSum(lYear: int) returns (offset: int)
    ensures offset == YearsBefore(lYear)
  {
    offset := 0;
    var year := MinYear;
    while year < lYear
      invariant MinYear <= year && (year <= lYear || year == MinYear)
      invariant offset == YearsBefore(year)
    {
      var days := LunarYearDays(year);
      offset := offset + days;
      year := year + 1;
    }
  }

  /**
   * The loop of lines 269-271: the regular months before `lMonth`, and month
   * `lMonth` itself when its leap month is meant.
   */
  method MonthsSum(lYear: int, lMonth: int, isLeap: bool) returns (offset: int)
    ensures offset == RegularBefore(lYear, lMonth)
      + (if isLeap && lMonth >= 1 && lMonth == LeapMonth(lYear) then RegularLength(lYear, lMonth) else 0)
  {
    var leapMonth := LeapMonth(lYear);
    var data := Data(lYear);
    offset := 0;
    var month := 1;
    assert RegularBefore(lYear, month) == 0;
    while month < lMonth || (isLeap && month == lMonth && lMonth == leapMonth)
      invariant lMonth < 1 ==> month == 1
      invariant lMonth >= 1 ==> 1 <= month <= lMonth + 1
      invariant lMonth >= 1 && month == lMonth + 1 ==> isLeap && lMonth == leapMonth
      invariant offset == RegularBefore(lYear, month)
      decreases lMonth + 1 - month
    {
      assert RegularBefore(lYear, month + 1) == offset + RegularLength(lYear, month);
      offset := offset + if BitSet(data, ShiftCount(16 - month)) then 30 else 29;
      month := month + 1;
    }
  }

  // ---------------------------------------------------------------------------
  // getTimestampByLunar (lines 247-277)
  // ---------------------------------------------------------------------------

  /**
   * The guard of lines 248-262 as it behaves, followed by the offset sum. Line
   * 259 reads `data` before its declaration on line 265, so a leap date that
   * passes the earlier checks throws; for a regular month it tests
   * `1 << (17 - lMonth)`, never 0, so the day bound is always 30.
   */
  function LunarToTimestamp(y: int, m: int, d: int, isLeap: bool): Timestamp
  {
    if y < MinYear || y > MaxYear then Null
    else if m < 1 || m > 12 then Null
    else if isLeap && LeapMonth(y) != m then Null
    else if isLeap then ReferenceError
    else
      var days := if Pow2(ShiftCount(17 - m)) != 0 then 30 else 29;
      if d > days then Null
      else Millis(StartTime + LunarOffset(y, m, d, false) * MsPerDay)
  }

  method TimestampByLunar(lYear: int, lMonth: int, lDay: int, isLeap: bool) returns (r: Timestamp)
    ensures r == LunarToTimestamp(lYear, lMonth, lDay, isLeap)
    ensures r.Null? <==>
      (!InRange(lYear) || lMonth < 1 || lMonth > 12
       || (isLeap && LeapMonth(lYear) != lMonth) || (!isLeap && lDay > 30))
    ensures r.ReferenceError? <==> InRange(lYear) && 1 <= lMonth <= 12 && isLeap && LeapMonth(lYear) == lMonth
    ensures r.Millis? ==> r.ms == StartTime + LunarOffset(lYear, lMonth, lDay, false) * MsPerDay
  {
    if lYear < MinYear || lYear > MaxYear {
      return Null;
    }
    if lMonth < 1 || lMonth > 12 {
      return Null;
    }
    var leapMonth := LeapMonth(lYear);
    if isLeap && leapMonth != lMonth {
      return Null;
    }
    if isLeap {
      return ReferenceError;
    }
    var days := if Pow2(ShiftCount(17 - lMonth)) != 0 then 30 else 29;
    if lDay > days {
      return Null;
    }
    var offset := OffsetSum(lYear, lMonth, lDay, isLeap);
    r := Millis(StartTime + offset * MsPerDay);
  }

  // ---------------------------------------------------------------------------
  // getLunarByTimestamp (lines 279-322)
  // ---------------------------------------------------------------------------

  /**
   * The year walk of lines 287-293 from year `y` on, with `rem` days still to
   * go: the first year whose length reaches `rem`, and the day of that year.
   * Past 2100 the walk stops at 2101 with what is left.
   */
  function FindYear(rem: int, y: int): (r: (int, int))
    decreases rem
  {
    if y > MaxYear || rem <= YearDays(y) then (y, rem)
    else FindYear(rem - YearDays(y), y + 1)
  }

  /**
   * The month walk of lines 298-312 over year `y` from month `m` on, with day
   * `rem` of the rest of the year to find: the month, whether it is the leap
   * month, and the day within it. Each regular month is followed by the leap
   * month when it is the one the year doubles. Month 13 means the walk ran
   * off month 12.
   */
  function FindMonth(y: int, rem: int, m: int): (r: (int, bool, int))
    decreases rem
  {
    if m > 12 || rem <= RegularLength(y, m) then (m, false, rem)
    else
      var rest := rem - RegularLength(y, m);
      if LeapMonth(y) != 0 && m == LeapMonth(y) then
        if rest <= LeapLength(y) then (m, true, rest)
        else FindMonth(y, rest - LeapLength(y), m + 1)
      else FindMonth(y, rest, m + 1)
  }

  /** The lunar date of day offset `n`, or `None` (`null`) for `n <= 0`. */
  function DayToLunar(n: int): (r: Option<LunarDate>)
    ensures r.None? <==> n <= 0
  {
    if n <= 0 then None
    else
      var (y, dayOfYear) := FindYear(n, MinYear);
      var (m, isLeap, d) := FindMonth(y, dayOfYear, 1);
      Some(LunarDate(y, m, d, isLeap))
  }

  /** `Math.floor((timestamp - startTime) / 86400000)`: Dafny's `/` by a positive divisor floors. */
  function DayOfTimestamp(t: int): int
  {
    (t - StartTime) / MsPerDay
  }

  method LunarByTimestamp(timestamp: int) returns (r: Option<LunarDate>)
    ensures r == DayToLunar(DayOfTimestamp(timestamp))
  {
    var offset := (timestamp - StartTime) / MsPerDay;
    if offset <= 0 {
      return None;
    }
    ghost var day := offset;
    var lYear, count := WalkYears(offset);
    offset := offset - count;
    var lMonth, isLeap, monthCount := WalkMonths(lYear, offset);
    r := Some(LunarDate(lYear, lMonth, offset - monthCount, isLeap));
    DayToLunarOf(day, lYear, offset, lMonth, isLeap, offset - monthCount);
  }

  /** `DayToLunar` of day `n > 0`, read off the results of the two walks. */
  lemma DayToLunarOf(n: int, y: int, dayOfYear: int, m: int, isLeap: bool, d: int)
    requires n > 0 && FindYear(n, MinYear) == (y, dayOfYear)
    requires FindMonth(y, dayOfYear, 1) == (m, isLeap, d)
    ensures DayToLunar(n) == Some(LunarDate(y, m, d, isLeap))
  {
  }

  /**
   * The loop of lines 287-293: stop at the first year whose end reaches day
   * `offset`; `count` is the days of the years before it.
   */
  method WalkYears(offset: int) returns (lYear: int, count: int)
    ensures (lYear, offset - count) == FindYear(offset, MinYear)
  {
    count := 0;
    lYear := MinYear;
    assert offset - count == offset;
    while lYear <= MaxYear
      invariant MinYear <= lYear <= MaxYear + 1
      invariant FindYear(offset - count, lYear) == FindYear(offset, MinYear)
      decreases MaxYear + 1 - lYear
    {
      var days := LunarYearDays(lYear);
      if count + days >= offset {
        break;
      }
      count := count + days;
      lYear := lYear + 1;
    }
  }

  /**
   * The loop of lines 298-312: walk the months of `lYear` until day `offset`
   * of the year is reached; `count` is the days of the months before it.
   */
  method WalkMonths(lYear: int, offset: int) returns (lMonth: int, isLeap: bool, count: int)
    ensures (lMonth, isLeap, offset - count) == FindMonth(lYear, offset, 1)
  {
    var data := Data(lYear);
    var leapMonth := LeapMonth(lYear);
    count := 0;
    lMonth := 1;
    isLeap := false;
    assert offset - count == offset;
    while lMonth <= 12
      invariant 1 <= lMonth <= 13 && !isLeap
      invariant FindMonth(lYear, offset - count, lMonth) == FindMonth(lYear, offset, 1)
      decreases 13 - lMonth
    {
      var days := if BitSet(data, ShiftCount(16 - lMonth)) then 30 else 29;
      assert days == RegularLength(lYear, lMonth);
      if count + days >= offset {
        WalkStops(lYear, offset - count, lMonth);
        break;
      }
      count := count + days;
      if leapMonth != 0 && lMonth == leapMonth {
        days := if BitSet(data, 16) then 30 else 29;
        assert days == LeapLength(lYear);
        if count + days >= offset {
          WalkStopsInLeap(lYear, offset - count + RegularLength(lYear, lMonth), lMonth);
          isLeap := true;
          break;
        }
        count := count + days;
        WalkPassesLeap(lYear, offset - count + RegularLength(lYear, lMonth) + LeapLength(lYear), lMonth);
      } else {
        WalkPasses(lYear, offset - count + RegularLength(lYear, lMonth), lMonth);
      }
      lMonth := lMonth + 1;
    }
    if lMonth == 13 {
      WalkStops(lYear, offset - count, lMonth);
    }
  }

  /** The month walk stops in month `m` when the day lies within it, or past month 12. */
  lemma WalkStops(y: int, rem: int, m: int)
    requires m > 12 || rem <= RegularLength(y, m)
    ensures FindMonth(y, rem, m) == (m, false, rem)
  {
  }

  /** The month walk stops in the leap month after month `m` when the day lies within it. */
  lemma WalkStopsInLeap(y: int, rem: int, m: int)
    requires m <= 12 && rem > RegularLength(y, m)
    requires LeapMonth(y) != 0 && m == LeapMonth(y) && rem - RegularLength(y, m) <= LeapLength(y)
    ensures FindMonth(y, rem, m) == (m, true, rem - RegularLength(y, m))
  {
  }

  /** The month walk passes month `m` and the leap month after it when the day lies beyond both. */
  lemma WalkPassesLeap(y: int, rem: int, m: int)
    requires m <= 12 && rem > RegularLength(y, m)
    requires LeapMonth(y) != 0 && m == LeapMonth(y) && rem - RegularLength(y, m) > LeapLength(y)
    ensures FindMonth(y, rem, m) == FindMonth(y, rem - RegularLength(y, m) - LeapLength(y), m + 1)
  {
  }

  /** The month walk passes month `m`, which no leap month follows, when the day lies beyond it. */
  lemma WalkPasses(y: int, rem: int, m: int)
    requires m <= 12 && rem > RegularLength(y, m)
    requires !(LeapMonth(y) != 0 && m == LeapMonth(y))
    ensures FindMonth(y, rem, m) == FindMonth(y, rem - RegularLength(y, m), m + 1)
  {
  }

  // ---------------------------------------------------------------------------
  // The two directions agree
  // ---------------------------------------------------------------------------

  /** Each year adds its length to the days before it. */
  lemma YearsBeforeStep(y: int)
    requires y >= MinYear
    ensures YearsBefore(y + 1) == YearsBefore(y) + YearDays(y)
  {
  }

  /** Later years start later. */
  lemma {:induction false} YearsBeforeMono(a: int, b: int)
    requires MinYear <= a <= b
    ensures YearsBefore(a) + 348 * (b - a) <= YearsBefore(b)
    decreases b - a
  {
    if a < b {
      YearsBeforeMono(a, b - 1);
    }
  }

  /**
   * The year walk from year `y0` with `rem >= 1` days to go ends in a year `y`
   * and on day `r >= 1` of it, having passed the years `y0 .. y - 1`; it ends in
   * the table with `r` within the year, or at 2101.
   */
  lemma {:induction false} FindYearSum(rem: int, y0: int)
    requires MinYear <= y0 <= MaxYear + 1 && rem >= 1
    ensures var (y, r) := FindYear(rem, y0);
      y0 <= y <= MaxYear + 1 && r >= 1
      && YearsBefore(y) - YearsBefore(y0) + r == rem
      && (y <= MaxYear ==> r <= YearDays(y))
    decreases rem
  {
    if y0 <= MaxYear && rem > YearDays(y0) {
      FindYearStep(rem, y0);
      YearsBeforeStep(y0);
      FindYearSum(rem - YearDays(y0), y0 + 1);
    } else {
      FindYearStops(rem, y0);
    }
  }

  /** The walk passes year `y0` when the day lies beyond it. */
  lemma FindYearStep(rem: int, y0: int)
    requires y0 <= MaxYear && rem > YearDays(y0)
    ensures FindYear(rem, y0) == FindYear(rem - YearDays(y0), y0 + 1)
  {
  }

  /** The walk stops at year `y0` when the day lies within it, or past 2100. */
  lemma FindYearStops(rem: int, y0: int)
    requires y0 > MaxYear || rem <= YearDays(y0)
    ensures FindYear(rem, y0) == (y0, rem)
  {
  }

  /** Started in year `y0`, the walk reaches day `r` of a later year `y` of the table. */
  lemma FindYearLands(rem: int, y0: int, y: int, r: int)
    requires MinYear <= y0 <= y <= MaxYear && 1 <= r <= YearDays(y)
    requires rem == YearsBefore(y) - YearsBefore(y0) + r
    ensures FindYear(rem, y0) == (y, r)
  {
    FindYearPast(rem, y0, y, YearsBefore(y) - YearsBefore(y0));
    FindYearStops(r, y);
  }

  /**
   * Started in year `y0` with a day beyond the `skip` days of the years
   * `y0 .. y - 1`, the walk passes all of them.
   */
  lemma {:induction false} FindYearPast(rem: int, y0: int, y: int, skip: int)
    requires MinYear <= y0 <= y <= MaxYear + 1
    requires skip == YearsBefore(y) - YearsBefore(y0) && rem > skip
    ensures FindYear(rem, y0) == FindYear(rem - skip, y)
    decreases y - y0
  {
    if y0 != y {
      YearsBeforeMono(y0 + 1, y);
      YearsBeforeStep(y0);
      FindYearStep(rem, y0);
      FindYearPast(rem - YearDays(y0), y0 + 1, y, skip - YearDays(y0));
    }
  }

  /**
   * From month `m` to month `m + 1` lie the regular month `m` and, when `m` is
   * the leap month, the leap month after it.
   */
  lemma MonthsBeforeStep(y: int, m: int)
    requires 1 <= m <= 12
    ensures MonthsBefore(y, m + 1, false)
      == MonthsBefore(y, m, false) + RegularLength(y, m) + (if m == LeapMonth(y) then LeapLength(y) else 0)
  {
  }

  /** Later months start later. */
  lemma {:induction false} MonthsBeforeMono(y: int, a: int, b: int)
    requires 1 <= a <= b <= 13
    ensures MonthsBefore(y, a, false) + 29 * (b - a) <= MonthsBefore(y, b, false)
    decreases b - a
  {
    if a < b {
      MonthsBeforeMono(y, a, b - 1);
      MonthsBeforeStep(y, b - 1);
    }
  }

  /** Month 13 begins where the year ends, when the leap index names one of the twelve months. */
  lemma MonthsOfYear(y: int)
    requires WellFormed(y)
    ensures MonthsBefore(y, 13, false) == YearDays(y)
  {
    YearDaysByMonths(y, 13);
  }

  /**
   * Within a year whose leap index is one of its months, the month walk from
   * month `m0` with day `rem` of the rest of the year to find ends on a month
   * of the year (the leap month only where there is one) and a day within it,
   * having passed the months before it.
   */
  lemma {:induction false} FindMonthSum(y: int, rem: int, m0: int)
    requires WellFormed(y) && 1 <= m0 <= 13
    requires 1 <= rem <= YearDays(y) - MonthsBefore(y, m0, false)
    ensures var (m, isLeap, d) := FindMonth(y, rem, m0);
      m0 <= m <= 12 && (isLeap ==> m == LeapMonth(y))
      && 1 <= d <= MonthDays(y, m, isLeap)
      && MonthsBefore(y, m, isLeap) - MonthsBefore(y, m0, false) + d == rem
    decreases 13 - m0
  {
    MonthsOfYear(y);
    if m0 > 12 {
      assert false;
    }
    MonthsBeforeStep(y, m0);
    var through := MonthsBefore(y, m0 + 1, false) - MonthsBefore(y, m0, false);
    if rem > through {
      FindMonthStep(y, rem, m0);
      FindMonthSum(y, rem - through, m0 + 1);
    } else {
      FindMonthStops(y, rem, m0);
    }
  }

  /** A day within month `m0` or the leap month after it is found there. */
  lemma FindMonthStops(y: int, rem: int, m0: int)
    requires 1 <= m0 <= 12 && 1 <= rem <= MonthsBefore(y, m0 + 1, false) - MonthsBefore(y, m0, false)
    ensures var (m, isLeap, d) := FindMonth(y, rem, m0);
      m == m0 && (isLeap ==> m == LeapMonth(y))
      && 1 <= d <= MonthDays(y, m, isLeap)
      && MonthsBefore(y, m, isLeap) - MonthsBefore(y, m0, false) + d == rem
  {
    MonthsBeforeStep(y, m0);
  }

  /** Started at month `m0`, the month walk reaches day `d` of a later month `m` (or of its leap month). */
  lemma FindMonthLands(y: int, rem: int, m0: int, m: int, isLeap: bool, d: int)
    requires 1 <= m0 <= m <= 12 && (isLeap ==> m == LeapMonth(y))
    requires 1 <= d <= MonthDays(y, m, isLeap)
    requires rem == MonthsBefore(y, m, isLeap) - MonthsBefore(y, m0, false) + d
    ensures FindMonth(y, rem, m0) == (m, isLeap, d)
  {
    var skip := MonthsBefore(y, m, false) - MonthsBefore(y, m0, false);
    assert rem - skip >= 1;
    FindMonthPast(y, rem, m0, m, skip);
    FindMonthHere(y, rem - skip, m, isLeap, d);
  }

  /**
   * Started at month `m0` with a day beyond the `skip` days of the months
   * `m0 .. m - 1` (and their leap month), the walk passes all of them.
   */
  lemma {:induction false} FindMonthPast(y: int, rem: int, m0: int, m: int, skip: int)
    requires 1 <= m0 <= m <= 13
    requires skip == MonthsBefore(y, m, false) - MonthsBefore(y, m0, false) && rem > skip
    ensures FindMonth(y, rem, m0) == FindMonth(y, rem - skip, m)
    decreases m - m0
  {
    if m0 != m {
      var step := MonthsBefore(y, m0 + 1, false) - MonthsBefore(y, m0, false);
      MonthsBeforeMono(y, m0 + 1, m);
      FindMonthStep(y, rem, m0);
      FindMonthPast(y, rem - step, m0 + 1, m, skip - step);
    }
  }

  /** The walk stops in month `m`, or in its leap month, when the day lies there. */
  lemma FindMonthHere(y: int, rem: int, m: int, isLeap: bool, d: int)
    requires 1 <= m <= 12 && (isLeap ==> m == LeapMonth(y))
    requires 1 <= d <= MonthDays(y, m, isLeap)
    requires rem == MonthsBefore(y, m, isLeap) - MonthsBefore(y, m, false) + d
    ensures FindMonth(y, rem, m) == (m, isLeap, d)
  {
  }

  /** The walk moves on past month `m0` and its leap month when the day lies beyond them. */
  lemma FindMonthStep(y: int, rem: int, m0: int)
    requires 1 <= m0 <= 12 && rem > MonthsBefore(y, m0 + 1, false) - MonthsBefore(y, m0, false)
    ensures FindMonth(y, rem, m0) == FindMonth(y, rem - (MonthsBefore(y, m0 + 1, false) - MonthsBefore(y, m0, false)), m0 + 1)
  {
    MonthsBeforeStep(y, m0);
  }

  /**
   * `getLunarByTimestamp` inverts the offset sum on the table: a day offset
   * within 1900 .. 2100 maps to a date the calendar has, whose offset it is.
   */
  lemma DayToLunarInverse(n: int)
    requires 1 <= n <= YearsBefore(MaxYear + 1)
    ensures DayToLunar(n).Some? && Valid(DayToLunar(n).value) && OffsetOf(DayToLunar(n).value) == n
  {
    FindYearSum(n, MinYear);
    var (y, r) := FindYear(n, MinYear);
    if y > MaxYear {
      assert false;
    }
    TableWellFormed(y);
    FindMonthSum(y, r, 1);
  }

  /** Every date the calendar has is recovered from its day offset. */
  lemma LunarDayRoundTrip(d: LunarDate)
    requires Valid(d)
    ensures DayToLunar(OffsetOf(d)) == Some(d)
  {
    TableWellFormed(d.year);
    MonthsOfYear(d.year);
    var within := MonthsBefore(d.year, d.month, d.isLeap) + d.day;
    MonthsBeforeStep(d.year, d.month);
    MonthsBeforeMono(d.year, d.month + 1, 13);
    FindYearLands(OffsetOf(d), MinYear, d.year, within);
    FindMonthLands(d.year, within, 1, d.month, d.isLeap, d.day);
  }

  /** Past the end of 2100 the year walk stops at 2101 with the days that are left. */
  lemma BeyondLastYear(n: int)
    requires n > YearsBefore(MaxYear + 1)
    ensures FindYear(n, MinYear) == (MaxYear + 1, n - YearsBefore(MaxYear + 1))
  {
    FindYearSum(n, MinYear);
    var (y, r) := FindYear(n, MinYear);
    if y <= MaxYear {
      DayInTable(y, r);
    }
  }

  /** A day within a year of the table lies before the end of 2100. */
  lemma DayInTable(y: int, r: int)
    requires MinYear <= y <= MaxYear && r <= YearDays(y)
    ensures YearsBefore(y) + r <= YearsBefore(MaxYear + 1)
  {
    YearsBeforeMono(y + 1, MaxYear + 1);
    YearsBeforeStep(y);
  }

  /** Day offset 1 is lunar 1900, month 1, day 1. */
  lemma FirstDay()
    ensures DayToLunar(1) == Some(LunarDate(MinYear, 1, 1, false))
  {
    LunarDayRoundTrip(LunarDate(MinYear, 1, 1, false));
  }

  // ---------------------------------------------------------------------------
  // Where the leap month sits
  // ---------------------------------------------------------------------------

  /** The leap month begins the day after the last day of the regular month it doubles. */
  lemma LeapAfterRegular(y: int)
    requires 1 <= LeapMonth(y) <= 12
    ensures LunarOffset(y, LeapMonth(y), 1, true)
      == LunarOffset(y, LeapMonth(y), RegularLength(y, LeapMonth(y)), false) + 1
  {
  }

  /** The month after the leap month begins the day after the leap month's last day. */
  lemma NextAfterLeap(y: int)
    requires 1 <= LeapMonth(y) <= 12
    ensures LunarOffset(y, LeapMonth(y) + 1, 1, false)
      == LunarOffset(y, LeapMonth(y), LeapLength(y), true) + 1
  {
    MonthsBeforeStep(y, LeapMonth(y));
  }

  /** The last day of year `y`: the end of the leap month when it doubles month 12, else of month 12. */
  function LastDay(y: int): LunarDate
  {
    if LeapMonth(y) == 12 then LunarDate(y, 12, LeapLength(y), true)
    else LunarDate(y, 12, RegularLength(y, 12), false)
  }

  /** A year's first day follows the previous year's last day, and a year starts after all earlier years. */
  lemma NewYear(y: int)
    requires MinYear <= y && WellFormed(y)
    ensures OffsetOf(LastDay(y)) + 1 == LunarOffset(y + 1, 1, 1, false)
    ensures LunarOffset(y + 1, 1, 1, false) == YearsBefore(y + 1) + 1
  {
    MonthsOfYear(y);
    MonthsBeforeStep(y, 12);
  }

  // ---------------------------------------------------------------------------
  // Timestamps
  // ---------------------------------------------------------------------------

  /** Any time within the day `k` days after `startTime` has day offset `k`. */
  lemma DayOfMillis(k: int, ms: int)
    requires 0 <= ms < MsPerDay
    ensures DayOfTimestamp(StartTime + k * MsPerDay + ms) == k
  {
    DivModUnique(k * MsPerDay + ms, MsPerDay, k, ms);
  }

  /**
   * A regular date the calendar has passes the guard of `getTimestampByLunar`,
   * and `getLunarByTimestamp` turns its timestamp back into it.
   */
  lemma TimestampRoundTrip(d: LunarDate)
    requires Valid(d) && !d.isLeap
    ensures LunarToTimestamp(d.year, d.month, d.day, false) == Millis(StartTime + OffsetOf(d) * MsPerDay)
    ensures DayToLunar(DayOfTimestamp(StartTime + OffsetOf(d) * MsPerDay)) == Some(d)
  {
    DayOfMillis(OffsetOf(d), 0);
    LunarDayRoundTrip(d);
  }

  /**
   * The guard lets day 30 of a 29-day regular month through; its timestamp is
   * that of the next day, so reading it back gives a different date.
   */
  lemma ThirtiethOfShortMonth(y: int, m: int)
    requires MinYear <= y < MaxYear && 1 <= m <= 12 && RegularLength(y, m) == 29
    ensures LunarToTimestamp(y, m, 30, false) == Millis(StartTime + LunarOffset(y, m, 30, false) * MsPerDay)
    ensures LunarOffset(y, m, 30, false) == LunarOffset(y, m, 29, false) + 1
    ensures DayToLunar(DayOfTimestamp(StartTime + LunarOffset(y, m, 30, false) * MsPerDay)) != Some(LunarDate(y, m, 30, false))
  {
    DayOfMillis(LunarOffset(y, m, 30, false), 0);
    ShortMonthReadBack(y, m);
  }

  /** The day offset of day 30 of a 29-day month is read back as another date. */
  lemma ShortMonthReadBack(y: int, m: int)
    requires MinYear <= y < MaxYear && 1 <= m <= 12 && RegularLength(y, m) == 29
    ensures DayToLunar(LunarOffset(y, m, 30, false)) != Some(LunarDate(y, m, 30, false))
  {
    var n := LunarOffset(y, m, 30, false);
    ShortMonthInTable(y, m);
    DayToLunarInverse(n);
  }

  /** Day 30 of a regular month before 2100 still lies within the table. */
  lemma ShortMonthInTable(y: int, m: int)
    requires MinYear <= y < MaxYear && 1 <= m <= 12 && RegularLength(y, m) == 29
    ensures 1 <= LunarOffset(y, m, 30, false) <= YearsBefore(MaxYear + 1)
  {
    ThirtiethInYear(y, m);
    DayInNextYear(y, MonthsBefore(y, m, false) + 30);
  }

  /** Day 30 of a regular month is at most one day past the end of its year. */
  lemma ThirtiethInYear(y: int, m: int)
    requires InRange(y) && 1 <= m <= 12
    ensures 0 <= MonthsBefore(y, m, false) && MonthsBefore(y, m, false) + 30 <= YearDays(y) + 1
  {
    TableWellFormed(y);
    MonthsOfYear(y);
    MonthsBeforeStep(y, m);
    MonthsBeforeMono(y, m + 1, 13);
  }

  /** A day at most one past the end of a year before 2100 lies within the table. */
  lemma DayInNextYear(y: int, k: int)
    requires MinYear <= y < MaxYear && k <= YearDays(y) + 1
    ensures YearsBefore(y) + k <= YearsBefore(MaxYear + 1)
  {
    YearsBeforeStep(y);
    YearsBeforeMono(y + 1, MaxYear + 1);
  }
}
