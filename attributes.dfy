/**
 * The calendrical attributes written next to a birthday: the sexagenary name
 * of the lunar year (`getGanZhiYear`), its animal (`getAnimalYear`) and the
 * Western sign of the solar month and day (`getZodiac`), with the date text
 * `getDateString` that the sign lookup compares.
 */
module Attributes {
  import opened JsSemantics

  // ---------------------------------------------------------------------------
  // getGanZhiYear (lines 325-335)
  // ---------------------------------------------------------------------------

  /** `ganMap`: the ten heavenly stems. */
  const GanMap: seq<string> := ["甲", "乙", "丙", "丁", "戊", "己", "庚", "辛", "壬", "癸"]

  /** `zhiMap`: the twelve earthly branches. */
  const ZhiMap: seq<string> := ["子", "丑", "寅", "卯", "辰", "巳", "午", "未", "申", "酉", "戌", "亥"]

  /**
   * `gzIndex`: the year's distance from 1984 under JavaScript's `%`, moved into
   * 1 .. 60; it is the distance modulo 60, with 60 in place of 0.
   */
  function GanZhiIndex(y: int): (g: int)
    ensures 1 <= g <= 60
    ensures g % 60 == (y - 1984) % 60
  {
    TruncRemEuclid(y - 1984, 60);
    var r := TruncRem(y - 1984, 60);
    if r > 0 then r else r + 60
  }

  /** `getGanZhiYear(y)`: stem `gzIndex % 10` and branch `gzIndex % 12`. */
  function GanZhiYear(y: int): string
  {
    var g := GanZhiIndex(y);
    GanMap[g % 10] + ZhiMap[g % 12]
  }

  /** Whatever the sign of `y - 1984`, the name is the stem and branch of its Euclidean remainders. */
  lemma GanZhiByCycle(y: int)
    ensures GanZhiYear(y) == GanMap[(y - 1984) % 10] + ZhiMap[(y - 1984) % 12]
  {
    var g := GanZhiIndex(y);
    ModOfSixty(g, y - 1984);
  }

  /** Numbers that agree modulo 60 agree modulo 10 and modulo 12. */
  lemma ModOfSixty(a: int, b: int)
    requires a % 60 == b % 60
    ensures a % 10 == b % 10 && a % 12 == b % 12
  {
    var qa, qb := a / 60, b / 60;
    var r := a % 60;
    DivModUnique(a, 10, 6 * qa + r / 10, r % 10);
    DivModUnique(b, 10, 6 * qb + r / 10, r % 10);
    DivModUnique(a, 12, 5 * qa + r / 12, r % 12);
    DivModUnique(b, 12, 5 * qb + r / 12, r % 12);
  }

  /** The names repeat every sixty years. */
  lemma GanZhiPeriod(y: int)
    ensures GanZhiYear(y + 60) == GanZhiYear(y)
  {
    GanZhiByCycle(y);
    GanZhiByCycle(y + 60);
    DivModUnique(y + 60 - 1984, 60, (y - 1984) / 60 + 1, (y - 1984) % 60);
    ModOfSixty(y + 60 - 1984, y - 1984);
  }

  /** 1984 is a 甲子 year and 2024 a 甲辰 year. */
  lemma GanZhiAnchors()
    ensures GanZhiYear(1984) == "甲子"
    ensures GanZhiYear(2024) == "甲辰"
  {
    GanZhiByCycle(1984);
    GanZhiByCycle(2024);
  }

  // ---------------------------------------------------------------------------
  // getAnimalYear (lines 337-343)
  // ---------------------------------------------------------------------------

  /** `animalMap`. */
  const AnimalMap: seq<string> := ["鼠", "牛", "虎", "兔", "龙", "蛇", "马", "羊", "猴", "鸡", "狗", "猪"]

  /**
   * The index `getAnimalYear` reads: `(y - 1984) % 12` under JavaScript's `%`,
   * plus 12 when negative, which is the Euclidean remainder.
   */
  function AnimalIndex(y: int): (i: int)
    ensures 0 <= i < 12 && i == (y - 1984) % 12
  {
    TruncRemEuclid(y - 1984, 12);
    var a := TruncRem(y - 1984, 12);
    if a > -1 then a else a + 12
  }

  function AnimalYear(y: int): string
  {
    AnimalMap[AnimalIndex(y)]
  }

  /** The animals repeat every twelve years, and 1984 is a year of the rat. */
  lemma AnimalCycle(y: int)
    ensures AnimalYear(y + 12) == AnimalYear(y)
    ensures AnimalYear(1984) == "鼠"
  {
    DivModUnique(y + 12 - 1984, 12, (y - 1984) / 12 + 1, (y - 1984) % 12);
  }

  // ---------------------------------------------------------------------------
  // getDateString (lines 151-155)
  // ---------------------------------------------------------------------------

  /** `('' + n).padStart(2, '0')`. */
  function Field(n: int): string
  {
    PadStart2(IntToString(n))
  }

  /** `getDateString(...parts)`: the padded fields joined with '-'. */
  function DateString(parts: seq<int>): string
  {
    if |parts| == 0 then ""
    else if |parts| == 1 then Field(parts[0])
    else Field(parts[0]) + "-" + DateString(parts[1..])
  }

  /** Two fields below 100 are written as the five characters MM-DD. */
  lemma MonthDayText(m: int, d: int)
    requires 0 <= m < 100 && 0 <= d < 100
    ensures DateString([m, d])
      == [DigitChar(m / 10), DigitChar(m % 10), '-', DigitChar(d / 10), DigitChar(d % 10)]
  {
    TwoDigitText(m);
    TwoDigitText(d);
    assert [m, d][1..] == [d];
  }

  /** Comparing the texts of two (month, day) pairs below 100 compares the pairs lexicographically. */
  lemma DateStringOrder(m: int, d: int, m2: int, d2: int)
    requires 0 <= m < 100 && 0 <= d < 100 && 0 <= m2 < 100 && 0 <= d2 < 100
    ensures StrGe(DateString([m, d]), DateString([m2, d2])) <==> m > m2 || (m == m2 && d >= d2)
  {
    MonthDayText(m, d);
    MonthDayText(m2, d2);
    DigitsLess(m / 10, m % 10, d / 10, d % 10, m2 / 10, m2 % 10, d2 / 10, d2 % 10);
  }

  /** Two "MM-DD" texts written with decimal digits compare as the numbers they write. */
  lemma DigitsLess(a0: int, a1: int, a3: int, a4: int, b0: int, b1: int, b3: int, b4: int)
    requires 0 <= a0 < 10 && 0 <= a1 < 10 && 0 <= a3 < 10 && 0 <= a4 < 10
    requires 0 <= b0 < 10 && 0 <= b1 < 10 && 0 <= b3 < 10 && 0 <= b4 < 10
    ensures StrLess([DigitChar(a0), DigitChar(a1), '-', DigitChar(a3), DigitChar(a4)],
                    [DigitChar(b0), DigitChar(b1), '-', DigitChar(b3), DigitChar(b4)])
      <==> 10 * a0 + a1 < 10 * b0 + b1 || (10 * a0 + a1 == 10 * b0 + b1 && 10 * a3 + a4 < 10 * b3 + b4)
  {
    FiveCharLess(DigitChar(a0), DigitChar(a1), DigitChar(a3), DigitChar(a4),
                 DigitChar(b0), DigitChar(b1), DigitChar(b3), DigitChar(b4));
    DigitCharOrder(a0, b0);
    DigitCharOrder(a1, b1);
    DigitCharOrder(a3, b3);
    DigitCharOrder(a4, b4);
  }

  lemma FiveCharLess(a0: char, a1: char, a3: char, a4: char, b0: char, b1: char, b3: char, b4: char)
    ensures StrLess([a0, a1, '-', a3, a4], [b0, b1, '-', b3, b4])
      <==> a0 < b0 || (a0 == b0 && (a1 < b1 || (a1 == b1 && (a3 < b3 || (a3 == b3 && a4 < b4)))))
  {
    StrLessCons(a0, [a1, '-', a3, a4], b0, [b1, '-', b3, b4]);
    StrLessCons(a1, ['-', a3, a4], b1, ['-', b3, b4]);
    StrLessCons('-', [a3, a4], '-', [b3, b4]);
    StrLessCons(a3, [a4], b3, [b4]);
    StrLessCons(a4, [], b4, []);
    assert [a0, a1, '-', a3, a4] == [a0] + [a1, '-', a3, a4];
    assert [b0, b1, '-', b3, b4] == [b0] + [b1, '-', b3, b4];
    assert [a1, '-', a3, a4] == [a1] + ['-', a3, a4] && [b1, '-', b3, b4] == [b1] + ['-', b3, b4];
    assert ['-', a3, a4] == ['-'] + [a3, a4] && ['-', b3, b4] == ['-'] + [b3, b4];
    assert [a3, a4] == [a3] + [a4] && [b3, b4] == [b3] + [b4];
    assert [a4] == [a4] + [] && [b4] == [b4] + [];
  }

  // ---------------------------------------------------------------------------
  // getZodiac (lines 345-357)
  // ---------------------------------------------------------------------------

  /** `zodiacMap`. */
  const ZodiacMap: seq<string> := ["水瓶", "双鱼", "白羊", "金牛", "双子", "巨蟹", "狮子", "处女", "天秤", "天蝎", "射手", "摩羯"]

  /** `zodiacDate`: sign `i` begins on day `ZodiacDate[i]` of month `i + 1`. */
  const ZodiacDate: seq<int> := [20, 19, 21, 20, 21, 22, 23, 23, 23, 24, 23, 22]

  /** Whether the text of (m, d) is at or after the first day of sign `i`. */
  predicate SignStarted(m: int, d: int, i: int)
    requires 0 <= i < 12
  {
    StrGe(DateString([m, d]), DateString([i + 1, ZodiacDate[i]]))
  }

  /** The last of the signs `0 .. n - 1` that has started by (m, d), or 11 when none has. */
  function LastSign(m: int, d: int, n: int): (i: int)
    requires 0 <= n <= 12
    ensures 0 <= i < 12
  {
    if n == 0 then 11
    else if SignStarted(m, d, n - 1) then n - 1
    else LastSign(m, d, n - 1)
  }

  /** The sign `getZodiac` picks for (m, d). */
  function ZodiacIndex(m: int, d: int): (i: int)
    ensures 0 <= i < 12
  {
    LastSign(m, d, 12)
  }

  /** `getZodiac(sMonth, sDay)`: the `forEach` over `zodiacDate` keeps the last sign that has begun. */
  method Zodiac(sMonth: int, sDay: int) returns (sign: string)
    ensures sign == ZodiacMap[ZodiacIndex(sMonth, sDay)] + "座"
  {
    var zoIndex := 11;
    var index := 0;
    while index < |ZodiacDate|
      invariant 0 <= index <= 12
      invariant zoIndex == LastSign(sMonth, sDay, index)
    {
      var day := ZodiacDate[index];
      var month := index + 1;
      var started := StrGe(DateString([sMonth, sDay]), DateString([month, day]));
      assert started == SignStarted(sMonth, sDay, index);
      if started {
        DivModUnique(index, 12, 0, index);
        zoIndex := index % 12;
      }
      index := index + 1;
    }
    assert index == 12;
    sign := ZodiacMap[zoIndex] + "座";
  }

  /**
   * For a month 1 .. 12 and a day below 100, the sign is that of the month when
   * the day has reached the sign's first day, and the previous sign otherwise
   * (摩羯 for a January day before the 20th).
   */
  lemma ZodiacByMonth(m: int, d: int)
    requires 1 <= m <= 12 && 0 <= d < 100
    ensures ZodiacIndex(m, d) == if d >= ZodiacDate[m - 1] then m - 1 else if m == 1 then 11 else m - 2
  {
    var last := if d >= ZodiacDate[m - 1] then m - 1 else m - 2;
    LastSignClosed(m, d, last, 12);
  }

  /** The signs up to index `last` have started by (m, d) and the later ones have not. */
  lemma {:induction false} LastSignClosed(m: int, d: int, last: int, n: int)
    requires 1 <= m <= 12 && 0 <= d < 100 && 0 <= n <= 12
    requires last == if d >= ZodiacDate[m - 1] then m - 1 else m - 2
    ensures LastSign(m, d, n) == if n == 0 then 11 else if n - 1 <= last then n - 1 else if last >= 0 then last else 11
  {
    if n > 0 {
      SignStartedUpTo(m, d, last, n - 1);
      LastSignClosed(m, d, last, n - 1);
    }
  }

  /** Sign `i` has started by (m, d) exactly when `i` is at most `last`. */
  lemma SignStartedUpTo(m: int, d: int, last: int, i: int)
    requires 1 <= m <= 12 && 0 <= d < 100 && 0 <= i < 12
    requires last == if d >= ZodiacDate[m - 1] then m - 1 else m - 2
    ensures SignStarted(m, d, i) <==> i <= last
  {
    SignStartedBy(m, d, i);
    if i == m - 1 {
      assert ZodiacDate[i] == ZodiacDate[m - 1];
    }
  }

  /** Sign `i` has started by (m, d) when (m, d) is at or after (i + 1, `ZodiacDate[i]`). */
  lemma SignStartedBy(m: int, d: int, i: int)
    requires 0 <= m < 100 && 0 <= d < 100 && 0 <= i < 12
    ensures SignStarted(m, d, i) <==> m > i + 1 || (m == i + 1 && d >= ZodiacDate[i])
  {
    ZodiacDateRange(i);
    DateStringOrder(m, d, i + 1, ZodiacDate[i]);
  }

  /** Every sign begins between the 19th and the 24th of its month. */
  lemma ZodiacDateRange(i: int)
    requires 0 <= i < 12
    ensures 19 <= ZodiacDate[i] <= 24
  {
  }

  /** March 20 is still Pisces; March 21 is Aries. */
  lemma ZodiacMarch(m: int, d: int)
    requires m == 3 && 20 <= d <= 21
    ensures ZodiacMap[ZodiacIndex(m, d)] + "座" == if d == 20 then "双鱼座" else "白羊座"
  {
    ZodiacByMonth(m, d);
  }
}
