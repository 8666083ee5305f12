/**
 * The text of a lunar birthday, such as 2024年腊月廿一: written from a lunar
 * date at lines 34-36, and read back with the pattern
 * `(\d{4})年(闰?[^月]+)月(.+)` and `indexOf` in `monthMap` and `dayMap`
 * at lines 44-47 and 63-66.
 */
module LunarText {
  import opened JsSemantics
  import opened LunarClock

  /** `monthMap`: the names of the lunar months 1 .. 12. */
  const MonthMap: seq<string> := ["正", "二", "三", "四", "五", "六", "七", "八", "九", "十", "冬", "腊"]

  /** `dayMap`: the names of the days 1 .. 30 of a lunar month. */
  const DayMap: seq<string> := [
    "初一", "初二", "初三", "初四", "初五", "初六", "初七", "初八", "初九", "初十",
    "十一", "十二", "十三", "十四", "十五", "十六", "十七", "十八", "十九", "二十",
    "廿一", "廿二", "廿三", "廿四", "廿五", "廿六", "廿七", "廿八", "廿九", "三十"]

  /** `names[i]` inside a template literal: the name, or "undefined" outside the array. */
  function Lookup(names: seq<string>, i: int): string
  {
    if 0 <= i < |names| then names[i] else "undefined"
  }

  // ---------------------------------------------------------------------------
  // Writing the text (lines 34-36)
  // ---------------------------------------------------------------------------

  /** The month part: 闰 before the month's name for a leap month. */
  function MonthText(m: int, isLeap: bool): string
  {
    if isLeap then "闰" + Lookup(MonthMap, m - 1) else Lookup(MonthMap, m - 1)
  }

  /** `${lYear}年${lunarMonthText}月${dayMap[lDay - 1]}`. */
  function FormatLunar(d: LunarDate): string
  {
    IntToString(d.year) + "年" + MonthText(d.month, d.isLeap) + "月" + Lookup(DayMap, d.day - 1)
  }

  // ---------------------------------------------------------------------------
  // Reading the text (lines 44-47 and 63-66)
  // ---------------------------------------------------------------------------

  /** The characters `.` does not match. */
  predicate LineTerminator(c: char)
  {
    c == '\n' || c == '\r' || c == '\U{2028}' || c == '\U{2029}'
  }

  /** `\d` without the `u` flag: an ASCII decimal digit. */
  predicate AsciiDigit(c: char)
  {
    '0' <= c <= '9'
  }

  /** The first index from `j` on where `s` holds `c`, or `|s|` when there is none. */
  function FindChar(s: string, c: char, j: nat): (k: nat)
    requires j <= |s|
    ensures j <= k <= |s|
    ensures k < |s| ==> s[k] == c
    ensures forall i :: j <= i < k ==> s[i] != c
    decreases |s| - j
  {
    if j == |s| || s[j] == c then j else FindChar(s, c, j + 1)
  }

  /** The first index from `j` on that holds a line terminator, or `|s|`. */
  function LineEnd(s: string, j: nat): (k: nat)
    requires j <= |s|
    ensures j <= k <= |s|
    ensures k < |s| ==> LineTerminator(s[k])
    ensures forall i :: j <= i < k ==> !LineTerminator(s[i])
    decreases |s| - j
  {
    if j == |s| || LineTerminator(s[j]) then j else LineEnd(s, j + 1)
  }

  /** The three groups of a match. */
  datatype Groups = Groups(year: string, month: string, day: string)

  /** What every match has: four digits, and a month and a day part that are not empty. */
  predicate Shaped(g: Groups)
  {
    |g.year| == 4 && (forall k :: 0 <= k < 4 ==> AsciiDigit(g.year[k]))
    && |g.month| >= 1 && |g.day| >= 1
  }

  /**
   * The match that starts at index `i`, if any: four digits and 年; then
   * `闰?[^月]+`, which (whether or not 闰 is taken) ends at the first 月 after
   * at least one character; then `.+`, which takes the rest of the line and
   * must take at least one character.
   */
  function MatchAt(s: string, i: nat): (r: Option<Groups>)
    ensures r.Some? ==> Shaped(r.value)
  {
    if i + 5 <= |s| && (forall k :: i <= k < i + 4 ==> AsciiDigit(s[k])) && s[i + 4] == '年' then
      var k := FindChar(s, '月', i + 5);
      if i + 5 < k < |s| then
        var e := LineEnd(s, k + 1);
        if k + 1 < e then Some(Groups(s[i..i + 4], s[i + 5..k], s[k + 1..e])) else None
      else None
    else None
  }

  /** The leftmost match starting at index `i` or later. */
  function MatchFrom(s: string, i: nat): (r: Option<Groups>)
    requires i <= |s|
    ensures r.Some? ==> Shaped(r.value)
    decreases |s| - i
  {
    if MatchAt(s, i).Some? then MatchAt(s, i)
    else if i == |s| then None
    else MatchFrom(s, i + 1)
  }

  /** `s.match(/(\d{4})年(闰?[^月]+)月(.+)/)`: the groups of the leftmost match, or `null`. */
  function Match(s: string): (r: Option<Groups>)
    ensures r.Some? ==> Shaped(r.value)
  {
    MatchFrom(s, 0)
  }

  /** `s.replace("闰", "")`: the first 闰, wherever it is, removed. */
  function RemoveFirstLeap(s: string): (r: string)
    ensures |r| == |s| || |r| == |s| - 1
  {
    if s == [] then []
    else if s[0] == '闰' then s[1..]
    else [s[0]] + RemoveFirstLeap(s[1..])
  }

  /** The first index from `j` on that holds `x`, or -1. */
  function IndexFrom(names: seq<string>, x: string, j: nat): (i: int)
    requires j <= |names|
    ensures i == -1 || j <= i < |names|
    ensures i >= 0 ==> names[i] == x
    ensures forall k :: j <= k < |names| && (i == -1 || k < i) ==> names[k] != x
    decreases |names| - j
  {
    if j == |names| then -1
    else if names[j] == x then j
    else IndexFrom(names, x, j + 1)
  }

  /** `names.indexOf(x)`. */
  function IndexOf(names: seq<string>, x: string): int
  {
    IndexFrom(names, x, 0)
  }

  /** The number four ASCII digits denote (the string year is coerced to it wherever it is used). */
  function DecimalValue(s: string): int
    requires forall k :: 0 <= k < |s| ==> AsciiDigit(s[k])
  {
    if s == [] then 0
    else DecimalValue(s[..|s| - 1]) * 10 + (s[|s| - 1] as int - '0' as int)
  }

  /**
   * The lunar date lines 44-47 (and 63-66) read from the text: leap when the
   * month part starts with 闰; month and day `indexOf + 1`, so 0 for a name
   * the maps do not hold. `None` stands for the `null` match, on which
   * `.slice(1)` throws a TypeError.
   */
  function ParseLunar(s: string): (r: Option<LunarDate>)
    ensures r.None? <==> Match(s).None?
    ensures r.Some? ==> 0 <= r.value.year <= 9999 && 0 <= r.value.month <= 12 && 0 <= r.value.day <= 30
  {
    match Match(s)
    case None => None
    case Some(g) =>
      FourDigitsBound(g.year);
      var isLeap := g.month[0] == '闰';
      var month := IndexOf(MonthMap, RemoveFirstLeap(g.month)) + 1;
      var day := IndexOf(DayMap, g.day) + 1;
      Some(LunarDate(DecimalValue(g.year), month, day, isLeap))
  }

  /** `10^n`. */
  function Pow10(n: nat): (p: nat)
    ensures p >= 1
  {
    if n == 0 then 1 else 10 * Pow10(n - 1)
  }

  /** A string of `n` digits denotes a number below `10^n`. */
  lemma {:induction false} DecimalBound(s: string)
    requires forall k :: 0 <= k < |s| ==> AsciiDigit(s[k])
    ensures 0 <= DecimalValue(s) < Pow10(|s|)
  {
    if s != [] {
      DecimalBound(s[..|s| - 1]);
    }
  }

  lemma FourDigitsBound(s: string)
    requires |s| == 4 && forall k :: 0 <= k < 4 ==> AsciiDigit(s[k])
    ensures 0 <= DecimalValue(s) <= 9999
  {
    DecimalBound(s);
    assert Pow10(4) == 10000;
  }

  // ---------------------------------------------------------------------------
  // The round trip
  // ---------------------------------------------------------------------------

  /** A year of four digits is written as those digits. */
  lemma FourDigitYear(y: int)
    requires 1000 <= y <= 9999
    ensures var s := IntToString(y);
      |s| == 4 && (forall k :: 0 <= k < 4 ==> AsciiDigit(s[k])) && DecimalValue(s) == y
  {
    var a := y / 10;
    var b := a / 10;
    var c := b / 10;
    assert 1 <= c < 10;
    var s1, s2, s3 := [DigitChar(c)], [DigitChar(c), DigitChar(b % 10)], [DigitChar(c), DigitChar(b % 10), DigitChar(a % 10)];
    var s := s3 + [DigitChar(y % 10)];
    assert NatToString(c) == s1;
    assert NatToString(b) == s2;
    assert NatToString(a) == s3;
    assert IntToString(y) == s;
    assert s[..3] == s3 && s3[..2] == s2 && s2[..1] == s1 && s1[..0] == [];
    assert DecimalValue(s1) == c;
    assert DecimalValue(s2) == b;
    assert DecimalValue(s3) == a;
  }

  /** Each month name is one character, neither 月 nor 闰. */
  lemma MonthNamesShort()
    ensures forall i :: 0 <= i < 12 ==> |MonthMap[i]| == 1 && MonthMap[i][0] != '月' && MonthMap[i][0] != '闰'
  {
  }

  /** The month names differ from each other. */
  lemma MonthNamesDistinct()
    ensures forall i, k :: 0 <= k < i < 12 ==> MonthMap[k] != MonthMap[i]
  {
  }

  /** Each day name is two characters, neither of them a line terminator. */
  lemma DayNamesShort()
    ensures forall i :: 0 <= i < 30 ==> |DayMap[i]| == 2 && !LineTerminator(DayMap[i][0]) && !LineTerminator(DayMap[i][1])
  {
  }

  /** The day names differ from each other (shown ten days at a time). */
  lemma DayNamesDistinct()
    ensures forall i, k :: 0 <= k < i < 30 ==> DayMap[k] != DayMap[i]
  {
    DaysDistinct1();
    DaysDistinct2();
    DaysDistinct3();
  }

  lemma DaysDistinct1()
    ensures forall i, k :: 0 <= k < i < 10 ==> DayMap[k] != DayMap[i]
  {
  }

  lemma DaysDistinct2()
    ensures forall i, k :: 0 <= k < i && 10 <= i < 20 ==> DayMap[k] != DayMap[i]
  {
  }

  lemma DaysDistinct3()
    ensures forall i, k :: 0 <= k < i && 20 <= i < 30 ==> DayMap[k] != DayMap[i]
  {
  }

  /** The month or day name at index `i` is found at `i`: `indexOf` inverts the lookup. */
  lemma NameIndex(names: seq<string>, i: int)
    requires 0 <= i < |names|
    requires forall j, k :: 0 <= k < j < |names| ==> names[k] != names[j]
    ensures IndexOf(names, names[i]) == i
  {
  }

  /** Removing the first 闰 from a text without one leaves it unchanged. */
  lemma {:induction false} NoLeapToRemove(s: string)
    requires forall k :: 0 <= k < |s| ==> s[k] != '闰'
    ensures RemoveFirstLeap(s) == s
  {
    if s != [] {
      NoLeapToRemove(s[1..]);
    }
  }

  /**
   * Four digits, 年, a month part without 月, 月 and a day part without a line
   * terminator match from the first character, as exactly those groups.
   */
  lemma MatchesWhole(ys: string, mt: string, dt: string)
    requires Shaped(Groups(ys, mt, dt))
    requires forall i :: 0 <= i < |mt| ==> mt[i] != '月'
    requires forall i :: 0 <= i < |dt| ==> !LineTerminator(dt[i])
    ensures Match(ys + "年" + mt + "月" + dt) == Some(Groups(ys, mt, dt))
  {
    var s := ys + "年" + mt + "月" + dt;
    var k := 5 + |mt|;
    assert s[..4] == ys && s[4] == '年' && s[5..k] == mt && s[k] == '月' && s[k + 1..] == dt;
    assert |s| == k + 1 + |dt|;
    forall i | 0 <= i < 4
      ensures AsciiDigit(s[i])
    {
      assert s[i] == ys[i];
    }
    forall i | 5 <= i < k
      ensures s[i] != '月'
    {
      assert s[i] == mt[i - 5];
    }
    FindCharAt(s, '月', 5, k);
    forall i | k + 1 <= i < |s|
      ensures !LineTerminator(s[i])
    {
      assert s[i] == dt[i - k - 1];
    }
    LineEndAt(s, k + 1);
    assert FindChar(s, '月', 0 + 5) == k && LineEnd(s, k + 1) == |s|;
    assert s[0..0 + 4] == ys && s[k + 1..|s|] == dt;
    assert MatchAt(s, 0) == Some(Groups(ys, mt, dt));
  }

  /**
   * Reading back the text of a date with a four-digit year, a month 1 .. 12
   * and a day 1 .. 30 gives the date, leap flag included.
   */
  lemma FormatParse(d: LunarDate)
    requires 1000 <= d.year <= 9999 && 1 <= d.month <= 12 && 1 <= d.day <= 30
    ensures ParseLunar(FormatLunar(d)) == Some(d)
  {
    var ys := IntToString(d.year);
    var name := MonthMap[d.month - 1];
    var mt := MonthText(d.month, d.isLeap);
    var dt := DayMap[d.day - 1];
    FourDigitYear(d.year);
    MonthNamesShort();
    DayNamesShort();
    assert mt == if d.isLeap then ['闰'] + name else name;
    forall i | 0 <= i < |mt|
      ensures mt[i] != '月'
    {
    }
    MatchesWhole(ys, mt, dt);
    NoLeapToRemove(name);
    assert RemoveFirstLeap(mt) == name;
    MonthNamesDistinct();
    DayNamesDistinct();
    NameIndex(MonthMap, d.month - 1);
    NameIndex(DayMap, d.day - 1);
  }

  /** The first `c` from `j` on is at `k` when `s[k]` is one and none comes before it. */
  lemma {:induction false} FindCharAt(s: string, c: char, j: nat, k: nat)
    requires j <= k < |s| && s[k] == c
    requires forall i :: j <= i < k ==> s[i] != c
    ensures FindChar(s, c, j) == k
    decreases k - j
  {
    if j < k {
      FindCharAt(s, c, j + 1, k);
    }
  }

  /** With no line terminator from `j` on, the line runs to the end. */
  lemma {:induction false} LineEndAt(s: string, j: nat)
    requires j <= |s|
    requires forall i :: j <= i < |s| ==> !LineTerminator(s[i])
    ensures LineEnd(s, j) == |s|
    decreases |s| - j
  {
    if j < |s| {
      LineEndAt(s, j + 1);
    }
  }

  /** Every date of the calendar survives being written and read back. */
  lemma ValidFormatParse(d: LunarDate)
    requires Valid(d)
    ensures ParseLunar(FormatLunar(d)) == Some(d)
  {
    FormatParse(d);
  }

  /** The example text of the documentation: the 21st of the twelfth month of 2024. */
  lemma ExampleText(s: string)
    requires s == "2024年腊月廿一"
    ensures ParseLunar(s) == Some(LunarDate(2024, 12, 21, false))
  {
    assert s == FormatLunar(LunarDate(2024, 12, 21, false)) by {
      FourDigitYear(2024);
    }
    FormatParse(LunarDate(2024, 12, 21, false));
  }
}
