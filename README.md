# Birthday-Manager: the lunar calendar and next-birthday rules

This project models the calendar engine of `calculateNextBirthdayDates.js`
(Birthday-Manager) in Dafny and proves properties of it. That file holds four pieces:

- **The per-year table.** `monthData` has one radix-32 string per lunar year 1900 .. 2100. The file decodes it into a leap-month index, month lengths and year lengths (`getLeapMonth`, `getLunarMonthDays`, `getLunarYearDays`).
- **The two conversions.** `getTimestampByLunar` and `getLunarByTimestamp` convert between lunar dates and timestamps, counting days from `startTime`, which is 1900-01-30 UTC.
- **Calendar names.** `getGanZhiYear` gives the sexagenary year name, `getAnimalYear` the zodiac animal and `getZodiac` the Western sign. `getZodiac` compares texts written by `getDateString`.
- **The birthday rules.** `calculateNextBirthdayDates` works out when the next birthday falls, on the solar path and on the lunar path with its day-30 adjustment. It also writes and parses lunar birthday texts such as 2024年腊月廿一.

Modules, in dependency order:

| module | file | contents |
|---|---|---|
| `JsSemantics` | js_semantics.dfy | the JavaScript semantics the code relies on: `parseInt(s, 32)`, ToInt32 on a bit operand, the shift count of `<<`, bit tests, the truncated `%`, `'' + n`, `padStart(2, '0')`, string `<` / `>=` |
| `YearTable` | year_table.dfy | `monthData`, word for word, and its decoding; the loop of `getLunarYearDays` as a method |
| `LunarClock` | lunar_clock.dfy | the guard and the offset sum of `getTimestampByLunar`; the year and month walks of `getLunarByTimestamp`; the round trips between the two; where leap months sit |
| `Attributes` | attributes.dfy | `getDateString`, `getGanZhiYear`, `getAnimalYear`, `getZodiac` (its `forEach` as a loop) |
| `LunarText` | lunar_text.dfy | writing a lunar birthday text (lines 34-36) and reading one with the regular expression and `indexOf` (lines 44-47, 63-66) |
| `NextBirthday` | next_birthday.dfy | the next-year rules of both paths, the day-30 adjustment, and the texts of solar dates |

The loops of the source are Dafny methods with loop invariants. Each method is
proved equal to a function, and the properties are stated about those functions:

| method | loop in the source |
|---|---|
| `YearTable.LunarYearDays` | `getLunarYearDays` |
| `LunarClock.YearsSum`, `LunarClock.MonthsSum`, `LunarClock.OffsetSum` | the offset sum of `getTimestampByLunar` |
| `LunarClock.WalkYears`, `LunarClock.WalkMonths` | the walks of `getLunarByTimestamp` |
| `Attributes.Zodiac` | `getZodiac` |

Everything else is a function.

Dates are counted as days from `startTime`. The millisecond factor appears only at the boundary: `StartTime + offset * MsPerDay` on the way out, and `DayOfTimestamp` (a floor division) on the way in.

Where the code does something other than what its comments or its evident intent say, the model follows the code:

- **The guard of `getTimestampByLunar`.** Line 259 reads `data` before the `let` at line 265.
  - A leap date that passes the earlier checks therefore throws a ReferenceError. The model returns `ReferenceError`.
  - For a regular month, the test is `1 << (17 - lMonth)`, which is never 0. So every day up to 30 is accepted: day 30 of a 29-day month passes and lands on the next day (`ThirtiethOfShortMonth`).
- **Years outside the table.** `monthData[i]` outside the array is `undefined`, and `parseInt("undefined", 32)` is a number, because every letter of "undefined" is a radix-32 digit.
  - Its low 32 bits are 0x5CF95DCD, so such a year has leap index 13 and a 30-day leap month (`BeyondTable`).
  - `getLunarByTimestamp` reaches this case past 2100. There the year walk stops at 2101 (`BeyondLastYear`).
- **The day-30 adjustment.**
  - Line 90 passes `getLeapMonth(y)`, a number, as the `isLeap` flag. It counts as true whenever the year has a leap month, so the length compared with is the leap month's length when the birthday's month is the leap month (`ClampLength`, `LeapMonthClamp`).
  - Line 92 can make the day number 0 (`ThirtiethClamped`).
- **Reading the lunar text.**
  - An unknown month or day name gives `indexOf` = -1, so the number is 0.
  - `replace("闰", "")` removes the first 闰 wherever it stands.
  - When the pattern does not match, `.slice(1)` on `null` throws. The model returns `None`.
- **The year of the lunar text.** It is a string. The comparisons and subtractions in `getTimestampByLunar` use its numeric value, which is what `DecimalValue` computes.

## Model

| member | source | states |
|---|---|---|
| JsSemantics.ShiftCount | Resources/components/scripts/calculateNextBirthdayDates.js:240 | the count `<<` uses is below 32 and is the count itself for 0 .. 31 |
| JsSemantics.TruncRemEuclid | Resources/components/scripts/calculateNextBirthdayDates.js:330-332 | JavaScript's `%` for a positive divisor equals Dafny's Euclidean remainder when it is non-negative, and that remainder minus the divisor otherwise |
| JsSemantics.ParseInt32 | Resources/components/scripts/calculateNextBirthdayDates.js:221 | `parseInt(s, 32)` is NaN exactly when `s` is empty or does not start with a radix-32 digit |
| JsSemantics.ParseDigits | Resources/components/scripts/calculateNextBirthdayDates.js:221 | `parseInt(s, 32)` of a non-empty string of radix-32 digits is the number those digits denote in base 32 |
| JsSemantics.BitOperand | Resources/components/scripts/calculateNextBirthdayDates.js:222 | the operand `&` sees is below 2^32, is 0 for NaN and is the value itself below 2^32 |
| JsSemantics.TwoDigitText | Resources/components/scripts/calculateNextBirthdayDates.js:153 | `('' + n).padStart(2, '0')` for 0 <= n < 100 is the two decimal digits of `n` |
| JsSemantics.StrLessCons | Resources/components/scripts/calculateNextBirthdayDates.js:353 | Proof step of the string order: strings compare by their first characters when these differ, otherwise by the rest |
| JsSemantics.DigitCharOrder | Resources/components/scripts/calculateNextBirthdayDates.js:353 | digit characters compare as the digits they stand for |
| YearTable.ParseUndefined | Resources/components/scripts/calculateNextBirthdayDates.js:221 | `parseInt("undefined", 32)` as a bit operand is 0x5CF95DCD |
| YearTable.TableEntries | Resources/components/scripts/calculateNextBirthdayDates.js:190-212 | every year 1900 .. 2100 reads its text entry's value, which is below 2^17 with a leap index of at most 12 |
| YearTable.TableWellFormed | Resources/components/scripts/calculateNextBirthdayDates.js:189-212 | every year of the table has a leap index of 0 .. 12 and fits the 17-bit layout of line 189 |
| YearTable.BeyondTable | Resources/components/scripts/calculateNextBirthdayDates.js:221 | outside 1900 .. 2100 the entry reads 0x5CF95DCD: leap index 13 and a 30-day leap month |
| YearTable.LeapMonth | Resources/components/scripts/calculateNextBirthdayDates.js:220-223 | `getLeapMonth` is `data & 0xf`, at most 15 |
| YearTable.RegularLength | Resources/components/scripts/calculateNextBirthdayDates.js:240 | a regular month has 29 or 30 days; for months 1 .. 12, 30 exactly when bit 16 - m is set |
| YearTable.LeapLength | Resources/components/scripts/calculateNextBirthdayDates.js:242 | a leap month has 29 or 30 days, and 30 exactly when bit 16 is set |
| YearTable.MonthDays | Resources/components/scripts/calculateNextBirthdayDates.js:237-245 | `getLunarMonthDays` is 29 or 30. It is the leap month's length exactly when `isLeap` holds and the month is the leap month; otherwise it is the regular month's length. |
| YearTable.RegularBefore | Resources/components/scripts/calculateNextBirthdayDates.js:269-271 | the regular months before month m have between 29 and 30 days each |
| YearTable.YearDays | Resources/components/scripts/calculateNextBirthdayDates.js:225-235 | a year has 348 .. 390 days: at most 360 without a leap month and at least 377 with one |
| YearTable.RegularBeforeBits | Resources/components/scripts/calculateNextBirthdayDates.js:228-230 | the regular months before month m add 29 days each and one more for each set bit 17 - m .. 15 |
| YearTable.YearDaysByMonths | Resources/components/scripts/calculateNextBirthdayDates.js:225-235 | a year's length is its twelve regular months plus its leap month when it has one |
| YearTable.MonthBits | Resources/components/scripts/calculateNextBirthdayDates.js:228-230 | the nibble-wise count of bits 4 .. 15 equals the bit count over bits 4 .. 15 |
| YearTable.LunarYearDays | Resources/components/scripts/calculateNextBirthdayDates.js:225-235 | the mask loop of `getLunarYearDays` computes the year's length |
| YearTable.MaskTest | Resources/components/scripts/calculateNextBirthdayDates.js:228-229 | testing mask 2^k reads the length of regular month 16 - k, and `i >>= 1` moves to 2^(k-1) |
| LunarClock.YearsBefore | Resources/components/scripts/calculateNextBirthdayDates.js:266-268 | the years before 1900 add nothing, and the sum is never negative |
| LunarClock.MonthsBefore | Resources/components/scripts/calculateNextBirthdayDates.js:269-274 | no contract; the days of the year before a month, leap month placed after its regular month. LeapAfterRegular, NextAfterLeap and MonthsBeforeStep state that order |
| LunarClock.LunarOffset | Resources/components/scripts/calculateNextBirthdayDates.js:264-276 | no contract; the day offset of a lunar date. LunarDayRoundTrip and DayToLunarInverse make it the inverse of DayToLunar |
| LunarClock.OffsetSum | Resources/components/scripts/calculateNextBirthdayDates.js:264-276 | the offset sum is the earlier years, the earlier months (with the leap month where it falls) and the day |
| LunarClock.YearsSum | Resources/components/scripts/calculateNextBirthdayDates.js:266-268 | the year loop sums the lengths of the years 1900 .. y - 1 |
| LunarClock.MonthsSum | Resources/components/scripts/calculateNextBirthdayDates.js:269-271 | the month loop sums the regular months before m, plus month m itself when its leap month is asked for |
| LunarClock.LunarToTimestamp | Resources/components/scripts/calculateNextBirthdayDates.js:247-277 | no contract; the guard and the offset sum. TimestampByLunar states when it is null, when it throws and what it is otherwise |
| LunarClock.TimestampByLunar | Resources/components/scripts/calculateNextBirthdayDates.js:247-277 | the result is null exactly when the year is outside the table, the month is outside 1 .. 12, a leap month the year lacks is asked for, or a regular day exceeds 30. It throws exactly for a leap month the year has. Otherwise it is the timestamp of the offset. |
| LunarClock.DayToLunar | Resources/components/scripts/calculateNextBirthdayDates.js:283-285 | the result is null exactly for a day offset of 0 or less |
| LunarClock.FindYear | Resources/components/scripts/calculateNextBirthdayDates.js:286-293 | no contract; the year walk. FindYearSum states where it ends and FindYearLands that it finds the year of a day |
| LunarClock.FindMonth | Resources/components/scripts/calculateNextBirthdayDates.js:294-313 | no contract; the month walk. FindMonthSum states where it ends and FindMonthLands that it finds the month of a day |
| LunarClock.LunarByTimestamp | Resources/components/scripts/calculateNextBirthdayDates.js:279-322 | `getLunarByTimestamp` is `DayToLunar` of the floored day offset: null for an offset of 0 or less, otherwise the year, month, leap flag and day the two walks reach |
| LunarClock.WalkYears | Resources/components/scripts/calculateNextBirthdayDates.js:286-293 | the year loop stops at the first year whose end reaches the offset |
| LunarClock.WalkMonths | Resources/components/scripts/calculateNextBirthdayDates.js:294-313 | the month loop visits each regular month and then its leap month, and stops at the first month whose end reaches the day |
| LunarClock.DayToLunarOf | Resources/components/scripts/calculateNextBirthdayDates.js:283-322 | Proof step of the walks and orders above: the date of a positive day offset is the year the year walk reaches, with the month, leap flag and day the month walk reaches in it |
| LunarClock.WalkStops | Resources/components/scripts/calculateNextBirthdayDates.js:299-302 | Proof step of the walks and orders above: the month loop stops at month m when the day lies within it, and after month 12 |
| LunarClock.WalkStopsInLeap | Resources/components/scripts/calculateNextBirthdayDates.js:303-308 | Proof step of the walks and orders above: past regular month m, the loop stops in its leap month when the day lies there, with `isLeap` set |
| LunarClock.WalkPassesLeap | Resources/components/scripts/calculateNextBirthdayDates.js:303-311 | Proof step of the walks and orders above: past month m and its leap month, the loop goes on with month m + 1 |
| LunarClock.WalkPasses | Resources/components/scripts/calculateNextBirthdayDates.js:299-304 | Proof step of the walks and orders above: past a month that has no leap month after it, the loop goes on with month m + 1 |
| LunarClock.YearsBeforeStep | Resources/components/scripts/calculateNextBirthdayDates.js:266-268 | Proof step of the walks and orders above: each year adds its length to the days before it |
| LunarClock.YearsBeforeMono | Resources/components/scripts/calculateNextBirthdayDates.js:266-268 | a later year starts at least 348 days per year later |
| LunarClock.FindYearSum | Resources/components/scripts/calculateNextBirthdayDates.js:287-293 | the year walk ends in a year of the table on a day within it, or at 2101, having passed exactly the years before it |
| LunarClock.FindYearStep | Resources/components/scripts/calculateNextBirthdayDates.js:289-292 | Proof step of the walks and orders above: the walk passes a year when the day lies beyond it |
| LunarClock.FindYearStops | Resources/components/scripts/calculateNextBirthdayDates.js:289-291 | Proof step of the walks and orders above: the walk stops at a year when the day lies within it |
| LunarClock.FindYearLands | Resources/components/scripts/calculateNextBirthdayDates.js:287-293 | the year walk reaches day r of year y for the offset of that day |
| LunarClock.FindYearPast | Resources/components/scripts/calculateNextBirthdayDates.js:287-293 | when the day lies beyond year y - 1, the walk from an earlier year passes all years before y |
| LunarClock.MonthsBeforeStep | Resources/components/scripts/calculateNextBirthdayDates.js:269-274 | Proof step of the walks and orders above: from month m to m + 1 lie regular month m and, when m is the leap month, the leap month |
| LunarClock.MonthsBeforeMono | Resources/components/scripts/calculateNextBirthdayDates.js:269-271 | a later month starts at least 29 days per month later |
| LunarClock.MonthsOfYear | Resources/components/scripts/calculateNextBirthdayDates.js:225-235 | month 13 begins where the year ends |
| LunarClock.FindMonthSum | Resources/components/scripts/calculateNextBirthdayDates.js:298-313 | the month walk ends on a month of the year (leap only the leap month) and a day within it, having passed exactly the months before it |
| LunarClock.FindMonthStops | Resources/components/scripts/calculateNextBirthdayDates.js:299-309 | a day within month m or its leap month is found there |
| LunarClock.FindMonthLands | Resources/components/scripts/calculateNextBirthdayDates.js:298-313 | the month walk reaches day d of month m, or of its leap month, for the offset of that day |
| LunarClock.FindMonthPast | Resources/components/scripts/calculateNextBirthdayDates.js:298-313 | when the day lies beyond month m - 1, the walk from an earlier month passes every month (and leap month) before m |
| LunarClock.FindMonthHere | Resources/components/scripts/calculateNextBirthdayDates.js:299-309 | Proof step of the walks and orders above: the walk stops in month m or in its leap month when the day lies there |
| LunarClock.FindMonthStep | Resources/components/scripts/calculateNextBirthdayDates.js:299-311 | Proof step of the walks and orders above: the walk moves past month m and its leap month when the day lies beyond them |
| LunarClock.DayToLunarInverse | Resources/components/scripts/calculateNextBirthdayDates.js:279-322 | every day offset within 1900 .. 2100 maps to a date the calendar has (day within its month's length, leap only in the leap month), and that date's offset is the day offset |
| LunarClock.LunarDayRoundTrip | Resources/components/scripts/calculateNextBirthdayDates.js:264-313 | every date the calendar has is recovered from its offset |
| LunarClock.BeyondLastYear | Resources/components/scripts/calculateNextBirthdayDates.js:287-293 | past the end of 2100 the year walk stops at 2101 with the days that are left |
| LunarClock.DayInTable | Resources/components/scripts/calculateNextBirthdayDates.js:266-268 | a day within a year of the table lies before the end of 2100 |
| LunarClock.FirstDay | Resources/components/scripts/calculateNextBirthdayDates.js:218 | day offset 1 is lunar 1900, month 1, day 1 |
| LunarClock.LeapAfterRegular | Resources/components/scripts/calculateNextBirthdayDates.js:269-271 | the leap month begins the day after the last day of the regular month it doubles |
| LunarClock.NextAfterLeap | Resources/components/scripts/calculateNextBirthdayDates.js:272-274 | the month after the leap month begins the day after the leap month ends |
| LunarClock.NewYear | Resources/components/scripts/calculateNextBirthdayDates.js:264-276 | a year's first day follows the previous year's last day and is 1 + the days of all earlier years |
| LunarClock.DayOfMillis | Resources/components/scripts/calculateNextBirthdayDates.js:280 | any time within day k after `startTime` has day offset k |
| LunarClock.TimestampRoundTrip | Resources/components/scripts/calculateNextBirthdayDates.js:247-322 | a regular date the calendar has passes the guard, and its timestamp is read back as the same date |
| LunarClock.ThirtiethOfShortMonth | Resources/components/scripts/calculateNextBirthdayDates.js:259-262 | the guard accepts day 30 of a 29-day month; its timestamp is the next day's and reads back as another date; for years 1900 .. 2099 only, as its requires leaves out 2100 |
| LunarClock.ShortMonthReadBack | Resources/components/scripts/calculateNextBirthdayDates.js:279-322 | the offset of day 30 of a 29-day month reads back as another date; for years 1900 .. 2099 only, as its requires leaves out 2100 |
| LunarClock.ShortMonthInTable | Resources/components/scripts/calculateNextBirthdayDates.js:264-276 | day 30 of a month of a year before 2100 lies within the table |
| LunarClock.ThirtiethInYear | Resources/components/scripts/calculateNextBirthdayDates.js:269-271 | day 30 of a regular month lies at most one day past the end of its year |
| LunarClock.DayInNextYear | Resources/components/scripts/calculateNextBirthdayDates.js:266-268 | a day at most one past the end of a year before 2100 lies within the table |
| Attributes.GanZhiIndex | Resources/components/scripts/calculateNextBirthdayDates.js:329-330 | `gzIndex` is normalised into 1 .. 60 and is y - 1984 modulo 60 |
| Attributes.GanZhiYear | Resources/components/scripts/calculateNextBirthdayDates.js:327-334 | no contract; `getGanZhiYear`. GanZhiByCycle gives its closed form, GanZhiPeriod its period and GanZhiAnchors the year 1984 |
| Attributes.GanZhiByCycle | Resources/components/scripts/calculateNextBirthdayDates.js:328-334 | the year name is `ganMap[(y - 1984) mod 10] + zhiMap[(y - 1984) mod 12]` |
| Attributes.ModOfSixty | Resources/components/scripts/calculateNextBirthdayDates.js:331-332 | two numbers equal modulo 60 are equal modulo 10 and modulo 12 |
| Attributes.GanZhiPeriod | Resources/components/scripts/calculateNextBirthdayDates.js:328-334 | the year name repeats every 60 years |
| Attributes.GanZhiAnchors | Resources/components/scripts/calculateNextBirthdayDates.js:327 | 1984 is 甲子 and 2024 is 甲辰 |
| Attributes.AnimalIndex | Resources/components/scripts/calculateNextBirthdayDates.js:340-342 | the index is in 0 .. 11 and is y - 1984 modulo 12 |
| Attributes.AnimalYear | Resources/components/scripts/calculateNextBirthdayDates.js:338-343 | no contract; `getAnimalYear`. AnimalCycle gives its period and the year 1984 |
| Attributes.AnimalCycle | Resources/components/scripts/calculateNextBirthdayDates.js:338-343 | the animal repeats every 12 years, and 1984 is 鼠 |
| Attributes.MonthDayText | Resources/components/scripts/calculateNextBirthdayDates.js:151-155 | two fields below 100 are written as the five characters MM-DD |
| Attributes.DateStringOrder | Resources/components/scripts/calculateNextBirthdayDates.js:353 | for fields below 100, `>=` on the texts is lexicographic `>=` on (month, day) |
| Attributes.DigitsLess | Resources/components/scripts/calculateNextBirthdayDates.js:353 | two MM-DD texts compare as the numbers they write |
| Attributes.FiveCharLess | Resources/components/scripts/calculateNextBirthdayDates.js:353 | two five-character texts with "-" in the middle compare character by character |
| Attributes.LastSign | Resources/components/scripts/calculateNextBirthdayDates.js:350-356 | the last sign kept is one of the twelve |
| Attributes.ZodiacIndex | Resources/components/scripts/calculateNextBirthdayDates.js:349-357 | the index of the sign is one of the twelve; ZodiacByMonth gives it in closed form |
| Attributes.Zodiac | Resources/components/scripts/calculateNextBirthdayDates.js:349-357 | the `forEach` keeps the last sign whose first day is at or before (sMonth, sDay), or 摩羯 when none is |
| Attributes.ZodiacByMonth | Resources/components/scripts/calculateNextBirthdayDates.js:346-357 | the sign is the month's own sign from its first day on, and otherwise the previous sign (摩羯 for January) |
| Attributes.LastSignClosed | Resources/components/scripts/calculateNextBirthdayDates.js:351-356 | the signs that have started are exactly the first ones up to the month's own sign or the previous sign |
| Attributes.SignStartedUpTo | Resources/components/scripts/calculateNextBirthdayDates.js:353 | sign i has started exactly when i is at most the last sign of the month |
| Attributes.SignStartedBy | Resources/components/scripts/calculateNextBirthdayDates.js:352-353 | sign i has started exactly when (month, day) is at or after (i + 1, `zodiacDate[i]`) |
| Attributes.ZodiacDateRange | Resources/components/scripts/calculateNextBirthdayDates.js:347 | every sign begins between the 19th and the 24th |
| Attributes.ZodiacMarch | Resources/components/scripts/calculateNextBirthdayDates.js:346-357 | March 20 is 双鱼座 and March 21 is 白羊座 |
| LunarText.MonthText | Resources/components/scripts/calculateNextBirthdayDates.js:34 | no contract; the month part, 闰 before a leap month's name. FormatParse reads it back |
| LunarText.FormatLunar | Resources/components/scripts/calculateNextBirthdayDates.js:35 | no contract; the lunar birthday text. FormatParse and ValidFormatParse read it back as the same date |
| LunarText.FindChar | Resources/components/scripts/calculateNextBirthdayDates.js:44 | the first `月` at or after a position, or the end |
| LunarText.LineEnd | Resources/components/scripts/calculateNextBirthdayDates.js:44 | `.+` runs to the first line terminator or the end |
| LunarText.MatchAt | Resources/components/scripts/calculateNextBirthdayDates.js:44 | a match at a position has four ASCII digits, a non-empty month part without `月`, and a non-empty day part without line terminators |
| LunarText.MatchFrom | Resources/components/scripts/calculateNextBirthdayDates.js:44 | a match found searching from a position has the groups' shape |
| LunarText.Match | Resources/components/scripts/calculateNextBirthdayDates.js:44 | the leftmost match has the groups' shape |
| LunarText.RemoveFirstLeap | Resources/components/scripts/calculateNextBirthdayDates.js:46 | `replace("闰", "")` removes the first 闰 wherever it stands, so the text loses at most one character |
| LunarText.IndexFrom | Resources/components/scripts/calculateNextBirthdayDates.js:46-47 | `indexOf` is -1 or the first position holding the name |
| LunarText.ParseLunar | Resources/components/scripts/calculateNextBirthdayDates.js:44-47 | the text is read exactly when the pattern matches; year 0 .. 9999, month 0 .. 12 and day 0 .. 30, with 0 for an unknown name |
| LunarText.DecimalBound | Resources/components/scripts/calculateNextBirthdayDates.js:44 | n decimal digits are below 10^n |
| LunarText.FourDigitsBound | Resources/components/scripts/calculateNextBirthdayDates.js:44 | the four digits of the year group are at most 9999 |
| LunarText.FourDigitYear | Resources/components/scripts/calculateNextBirthdayDates.js:36 | a year 1000 .. 9999 is written as four digits that read back as the year |
| LunarText.MonthNamesShort | Resources/components/scripts/calculateNextBirthdayDates.js:214 | each month name is one character, neither 月 nor 闰 |
| LunarText.MonthNamesDistinct | Resources/components/scripts/calculateNextBirthdayDates.js:214 | the month names are pairwise distinct |
| LunarText.DayNamesShort | Resources/components/scripts/calculateNextBirthdayDates.js:216 | each day name is two characters, neither of them a line terminator |
| LunarText.DayNamesDistinct | Resources/components/scripts/calculateNextBirthdayDates.js:216 | the day names are pairwise distinct |
| LunarText.NameIndex | Resources/components/scripts/calculateNextBirthdayDates.js:46-47 | in distinct names, `indexOf` finds each name at its own position |
| LunarText.NoLeapToRemove | Resources/components/scripts/calculateNextBirthdayDates.js:46 | removing 闰 from a text without one leaves it unchanged |
| LunarText.MatchesWhole | Resources/components/scripts/calculateNextBirthdayDates.js:44 | year digits, 年, a month part, 月 and a day part match from the first character as exactly those groups |
| LunarText.FormatParse | Resources/components/scripts/calculateNextBirthdayDates.js:34-47 | the text written for a date with a four-digit year, a month 1 .. 12 and a day 1 .. 30 reads back as that date, leap flag included |
| LunarText.FindCharAt | Resources/components/scripts/calculateNextBirthdayDates.js:44 | `[^月]+` stops at the first 月 |
| LunarText.LineEndAt | Resources/components/scripts/calculateNextBirthdayDates.js:44 | without a line terminator `.+` runs to the end |
| LunarText.ValidFormatParse | Resources/components/scripts/calculateNextBirthdayDates.js:34-47 | every date of the calendar survives being written and read back |
| LunarText.ExampleText | Resources/components/scripts/calculateNextBirthdayDates.js:9 | 2024年腊月廿一 reads as 2024, month 12, day 21, not leap |
| NextBirthday.NextSolarYear | Resources/components/scripts/calculateNextBirthdayDates.js:101-104 | no contract; the year of the next solar birthday. SolarNextIsFirst makes it the first year whose birthday is not before today |
| NextBirthday.NextSolarBirthday | Resources/components/scripts/calculateNextBirthdayDates.js:101-110 | the month and day are copied, and the year is this year or the next |
| NextBirthday.SolarNextIsFirst | Resources/components/scripts/calculateNextBirthdayDates.js:101-104 | the next solar birthday is not before today, and the same date a year earlier is |
| NextBirthday.LunarNextIsFirst | Resources/components/scripts/calculateNextBirthdayDates.js:71-78 | the lunar year chosen puts the birthday strictly after today and a year earlier not after it |
| NextBirthday.NextLunarYear | Resources/components/scripts/calculateNextBirthdayDates.js:71-78 | no contract; the lunar year of the next lunar birthday. LunarNextIsFirst makes it the first year whose birthday is after today |
| NextBirthday.OnTheDay | Resources/components/scripts/calculateNextBirthdayDates.js:71-78 | on the birthday itself the solar rule keeps this year and the lunar rule moves to the next |
| NextBirthday.ClampLength | Resources/components/scripts/calculateNextBirthdayDates.js:90 | the length compared is 29 or 30: the leap month's when the birthday's month is the year's leap month, the regular month's otherwise |
| NextBirthday.InstantOf | Resources/components/scripts/calculateNextBirthdayDates.js:165 | no contract; the instant `new Date(t)` reads; `null` is instant 0, and the ReferenceError cannot reach it because line 84 asks for a regular month |
| NextBirthday.NextLunarBirthday | Resources/components/scripts/calculateNextBirthdayDates.js:80-93 | no contract; the next lunar birthday as a solar date. LunarClamp, LunarNoClamp, ThirtiethClamped and LeapMonthClamp state what it is |
| NextBirthday.LunarClamp | Resources/components/scripts/calculateNextBirthdayDates.js:80-93 | the lunar result is resolved with `isLeap` false. Its day is one less exactly when the lunar day exceeds the length compared, and unchanged otherwise. Year and month are kept. |
| NextBirthday.LunarNoClamp | Resources/components/scripts/calculateNextBirthdayDates.js:80-93 | a day the month has is the solar date of its own offset |
| NextBirthday.ThirtiethClamped | Resources/components/scripts/calculateNextBirthdayDates.js:80-93 | the 30th of a 29-day month is the next day's solar date with one taken off its day, and this can give day 0; for years 1900 .. 2099 only, as its requires leaves out 2100 |
| NextBirthday.LeapMonthClamp | Resources/components/scripts/calculateNextBirthdayDates.js:90-93 | in the leap month's regular month the clamp follows the leap month's length |
| NextBirthday.FormatNextBirthday | Resources/components/scripts/calculateNextBirthdayDates.js:114 | no contract; `getDateString(sYear, sMonth, sDay)`. MonthDayText and DateStringOrder state what `getDateString` writes; SolarTextIsDateString relates it to line 52 |
| NextBirthday.SolarText | Resources/components/scripts/calculateNextBirthdayDates.js:52 | no contract; the solar text written from a lunar birthday. SolarTextIsDateString shows it equals FormatNextBirthday from year 10 on |
| NextBirthday.SolarTextIsDateString | Resources/components/scripts/calculateNextBirthdayDates.js:52 | from year 10 on, the text at line 52 equals `getDateString(y, m, d)` at line 114 |

## Left out

- Host glue is not modelled: `exports`, `this.currentFile`, `app.metadataCache`, `updateFrontMatter` (lines 1-24, 39-41, 54-56, 129-141). This is document I/O through a foreign API.
- `getDaysUntilNextBirthday.js` is not part of this model. It reads front matter and the clock and does floating-point `Math.ceil` on a difference of milliseconds.
- The wall clock (`Date.now()` and `new Date()`, lines 68 and 98) is not modelled. Today's date is a parameter, as a lunar date or a solar date.
- The solar calendar of JavaScript's `Date` is not modelled: `getTimestampBySolar`, `getSolarByTimestamp` and `getSolarMonthDays` (lines 160-181, called at lines 31, 50 and 87). These are library calls into the Gregorian calendar of `Date`.
  - `getTimestampBySolar` is `Date.UTC(...)` (lines 160-162) and does not depend on the time zone.
  - `getSolarByTimestamp` (lines 164-176) reads the date with the local-time getters `getFullYear`, `getMonth` and `getDate`, and `getSolarMonthDays` (lines 178-181) builds a local-time `Date`. Both depend on the time zone.
  - The lunar path takes the conversion from timestamps to solar dates as a parameter `toSolar`.
- The days left (line 126) are not modelled. They are `Math.ceil` of a floating-point quotient of milliseconds measured against the clock.
- The next age (lines 124-127) is not modelled. It is the integer difference of the `getFullYear()` values of `new Date(formatNextBirthday)` and `new Date(birthdaySolar)`, so it rests on `Date`'s parsing of date texts and on the local time zone, which are not modelled. When the day-30 adjustment writes day 00, `new Date("YYYY-MM-00")` is an invalid date and the age is NaN.
- The `const birthdaySolar` reassignment at line 57, which throws a TypeError, is not modelled.
- The string coercions of the regular-expression results at line 116 are not modelled. Neither is the parse of the solar birthday text with `split("-").map(Number)` (lines 30 and 97) or with `new Date(birthdaySolar)` (lines 117-118). The inputs of `getZodiac` and the solar birthday's month and day are parameters.
- The fields `lMonthZH` and `lDayZH` of `getLunarByTimestamp` (lines 319-320) are not modelled; nothing of the core reads them.
- JsSemantics.ParseInt32: leading white space and a sign, which `parseInt` also accepts, are not modelled; no string the code parses has them.
- JsSemantics.StrLess: compares Unicode code points where JavaScript compares UTF-16 code units. The two agree on the digits and `-` that `getZodiac` compares.
- LunarText.ParseLunar: the year group stays a string in the code. The model reads it as its decimal value, the number JavaScript converts it to in the comparisons and sums of `getTimestampByLunar`.
