/**
 * The per-year table of the lunar calendar for 1900..2100 and its decoding
 * (`getLeapMonth`, `getLunarMonthDays`, `getLunarYearDays`).
 *
 * Each entry is a radix-32 string whose value holds 17 bits: bit 16 gives the
 * size of the leap month, bits 15..4 the sizes of regular months 1..12 (bit
 * 16 - m for month m; a set bit means 30 days, a clear one 29) and bits 3..0
 * the number of the month that is doubled by a leap month (0 for none).
 */
module YearTable {
  import opened JsSemantics

  const MinYear: int := 1900
  const MaxYear: int := 2100

  predicate InRange(y: int)
  {
    MinYear <= y <= MaxYear
  }

  // ---------------------------------------------------------------------------
  // monthData (lines 190-212)
  // ---------------------------------------------------------------------------

  /** Ten consecutive entries of `monthData`, one line of the array, followed by the later lines. */
  datatype TextDecades =
    | TextEnd
    | TextDecade(t0: string, t1: string, t2: string, t3: string, t4: string,
                 t5: string, t6: string, t7: string, t8: string, t9: string, later: TextDecades)

  /** The `i`-th entry from the first line of `d` on. */
  function TextAt(d: TextDecades, i: int): string
    decreases i
  {
    if i < 0 || d.TextEnd? then "undefined"
    else if i >= 10 then TextAt(d.later, i - 10)
    else if i == 0 then d.t0 else if i == 1 then d.t1 else if i == 2 then d.t2
    else if i == 3 then d.t3 else if i == 4 then d.t4 else if i == 5 then d.t5
    else if i == 6 then d.t6 else if i == 7 then d.t7 else if i == 8 then d.t8
    else d.t9
  }

  /**
   * `monthData`, verbatim, split into the entries for 1900 .. 1999 and those
   * for 2000 .. 2100. The array ends with the entry for 2100; the nine places
   * after it on the last line read "undefined", as every index past the end does.
   */
  const Texts1900: TextDecades :=
    TextDecade("iuo", "in0", "19bg", "l6l", "1kj0", "1mag", "2pak", "ll0", "16mg", "lei",
      TextDecade("in0", "19dm", "196g", "1kig", "3kil", "1da0", "1ll0", "1bd2", "15dg", "2ibn",
      TextDecade("ibg", "195g", "1d5l", "qig", "ra0", "3aqk", "ar0", "15bg", "kni", "ibg",
      TextDecade("pb6", "1l50", "1qig", "rkl", "mmg", "ar0", "31n3", "14n0", "3i6n", "1iag",
      TextDecade("1l50", "3m56", "1dag", "ll0", "39dk", "9eg", "14mg", "1kli", "1aag", "1dan",
      TextDecade("r50", "1dag", "2kql", "jd0", "19dg", "2hbj", "klg", "1ad8", "1qag", "ql0",
      TextDecade("1bl6", "1aqg", "ir0", "1an4", "19bg", "kj0", "1sj3", "1mag", "mqn", "ll0",
      TextDecade("15mg", "jel", "img", "196g", "1l6k", "1kig", "1lao", "1da0", "1dl0", "35d6",
      TextDecade("15dg", "idg", "1abk", "195g", "1cjq", "qig", "ra0", "1bq6", "1ar0", "15bg",
      TextDecade("inl", "ibg", "p5g", "t53", "1qig", "qqo", "le0", "1ar0", "15ml", "14n0", TextEnd))))))))))

  const Texts2000: TextDecades :=
    TextDecade("1ib0", "1mak", "1l50", "1mig", "tai", "ll0", "1atn", "9eg", "14mg", "1ill",
      TextDecade("1aag", "1d50", "1el4", "1bag", "lep", "it0", "19dg", "2kbm", "klg", "1a9g",
      TextDecade("uak", "ql0", "1bag", "mqi", "ir0", "19n6", "1970", "1kj0", "1qj5", "1l9g",
      TextDecade("ml0", "tl3", "15mg", "inr", "img", "196g", "3k5m", "1kig", "1l90", "1na5",
      TextDecade("1dd0", "lmg", "ldi", "idg", "19bn", "195g", "1aig", "3cil", "r90", "1bd0",
      TextDecade("2ir3", "14rg", "ifo", "ibg", "p5g", "2q56", "1qig", "qp0", "39m4", "1an0",
      TextDecade("18n0", "1kn3", "1ib0", "1lan", "1l50", "1mig", "nal", "ll0", "19mg", "lek",
      TextDecade("kmg", "1ado", "1aag", "1d50", "1dl6", "1bag", "ld0", "1at4", "19dg", "klg",
      TextDecade("1cjj", "q9g", "spn", "ql0", "1bag", "2iql", "ir0", "19bg", "l74", "1kb0",
      TextDecade("1qb8", "1l90", "1ml0", "2ql6", "lmg", "in0", "1aek", "18mg", "1kag", "1sii",
      TextDecade("1l90", "undefined", "undefined", "undefined", "undefined", "undefined", "undefined", "undefined", "undefined", "undefined", TextEnd)))))))))))

  /**
   * `monthData[y - minYear]` as parseInt reads it: the entry itself, or for an
   * index outside the array `undefined`, which becomes the string "undefined".
   */
  function Entry(y: int): string
  {
    if !InRange(y) then "undefined"
    else if y < 2000 then TextAt(Texts1900, y - 1900) else TextAt(Texts2000, y - 2000)
  }

  /** `parseInt(monthData[y - minYear], 32)` as the operand of `&`. */
  function EntryBits(y: int): nat
  {
    BitOperand(ParseInt32(Entry(y)))
  }

  /**
   * The low 32 bits of parseInt("undefined", 32): every letter of "undefined" is
   * a radix-32 digit, so an entry outside the table reads this number, not NaN.
   */
  const UndefinedBits: nat := 0x5CF9_5DCD

  lemma ParseUndefined()
    ensures BitOperand(ParseInt32("undefined")) == UndefinedBits
  {
    var u := "undefined";
    assert DigitRun(u, 9, 33790067563981) == 33790067563981;
    assert DigitRun(u, 6, 1031191026) == 33790067563981;
    assert DigitRun(u, 3, 31469) == 33790067563981;
    assert DigitRun(u, 0, 0) == 33790067563981;
  }

  // ---------------------------------------------------------------------------
  // The values of the entries
  // ---------------------------------------------------------------------------

  /** The values of ten consecutive entries, followed by those of the later lines. */
  datatype Decades =
    | End
    | Decade(y0: nat, y1: nat, y2: nat, y3: nat, y4: nat,
             y5: nat, y6: nat, y7: nat, y8: nat, y9: nat, later: Decades)

  /** The `i`-th value from the first line of `d` on. */
  function ValueAt(d: Decades, i: int): nat
    decreases i
  {
    if i < 0 || d.End? then UndefinedBits
    else if i >= 10 then ValueAt(d.later, i - 10)
    else if i == 0 then d.y0 else if i == 1 then d.y1 else if i == 2 then d.y2
    else if i == 3 then d.y3 else if i == 4 then d.y4 else if i == 5 then d.y5
    else if i == 6 then d.y6 else if i == 7 then d.y7 else if i == 8 then d.y8
    else d.y9
  }

  /**
   * The values parseInt reads from the entries, line by line as in
   * `monthData`; the places after 2100 hold the value of "undefined".
   * `TableEntries` shows that each is the value of its entry.
   */
  const Values1900: Decades :=
    Decade(19416, 19168, 42352, 21717, 53856, 55632, 91476, 22176, 39632, 21970,
      Decade(19168, 42422, 42192, 53840, 119381, 46400, 54944, 44450, 38320, 84343,
      Decade(18800, 42160, 46261, 27216, 27968, 109396, 11104, 38256, 21234, 18800,
      Decade(25958, 54432, 59984, 28309, 23248, 11104, 100067, 37600, 116951, 51536,
      Decade(54432, 120998, 46416, 22176, 107956, 9680, 37584, 53938, 43344, 46423,
      Decade(27808, 46416, 86869, 19872, 42416, 83315, 21168, 43432, 59728, 27296,
      Decade(44710, 43856, 19296, 43748, 42352, 21088, 62051, 55632, 23383, 22176,
      Decade(38608, 19925, 19152, 42192, 54484, 53840, 54616, 46400, 46752, 103846,
      Decade(38320, 18864, 43380, 42160, 45690, 27216, 27968, 44870, 43872, 38256,
      Decade(19189, 18800, 25776, 29859, 59984, 27480, 21952, 43872, 38613, 37600, End))))))))))

  const Values2000: Decades :=
    Decade(51552, 55636, 54432, 55888, 30034, 22176, 43959, 9680, 37584, 51893,
      Decade(43344, 46240, 47780, 44368, 21977, 19360, 42416, 86390, 21168, 43312,
      Decade(31060, 27296, 44368, 23378, 19296, 42726, 42208, 53856, 60005, 54576,
      Decade(23200, 30371, 38608, 19195, 19152, 42192, 118966, 53840, 54560, 56645,
      Decade(46496, 22224, 21938, 18864, 42359, 42160, 43600, 111189, 27936, 44448,
      Decade(84835, 37744, 18936, 18800, 25776, 92326, 59984, 27424, 108228, 43744,
      Decade(41696, 53987, 51552, 54615, 54432, 55888, 23893, 22176, 42704, 21972,
      Decade(21200, 43448, 43344, 46240, 46758, 44368, 21920, 43940, 42416, 21168,
      Decade(45683, 26928, 29495, 27296, 44368, 84821, 19296, 42352, 21732, 53600,
      Decade(59752, 54560, 55968, 92838, 22224, 19168, 43476, 41680, 53584, 62034,
      Decade(54560, 0x5CF95DCD, 0x5CF95DCD, 0x5CF95DCD, 0x5CF95DCD, 0x5CF95DCD, 0x5CF95DCD, 0x5CF95DCD, 0x5CF95DCD, 0x5CF95DCD, End)))))))))))

  /**
   * `parseInt(monthData[y - minYear], 32)` as an operand of `&`, read from the
   * values of the entries (`TableEntries` and `BeyondTable` show it is `EntryBits`).
   */
  function Data(y: int): nat
  {
    if !InRange(y) then UndefinedBits
    else if y < 2000 then ValueAt(Values1900, y - 1900) else ValueAt(Values2000, y - 2000)
  }

  /** What a year of the table reads: its entry's value, of 17 bits, with a leap index of at most 12. */
  predicate TableEntry(y: int)
  {
    Data(y) == EntryBits(y) && Data(y) < 0x2_0000 && LeapMonth(y) <= 12
  }

  lemma Read1900(y: int)
    requires y == 1900
    ensures Data(y) == EntryBits(y) == 19416
  {
    assert ParseInt32("iuo") == Some(19416);
    assert Entry(y) == "iuo";
  }

  lemma Read1901(y: int)
    requires y == 1901
    ensures Data(y) == EntryBits(y) == 19168
  {
    assert ParseInt32("in0") == Some(19168);
    assert Entry(y) == "in0";
  }

  lemma Read1902(y: int)
    requires y == 1902
    ensures Data(y) == EntryBits(y) == 42352
  {
    assert ParseInt32("19bg") == Some(42352);
    assert Entry(y) == "19bg";
  }

  lemma Read1903(y: int)
    requires y == 1903
    ensures Data(y) == EntryBits(y) == 21717
  {
    assert ParseInt32("l6l") == Some(21717);
    assert Entry(y) == "l6l";
  }

  lemma Read1904(y: int)
    requires y == 1904
    ensures Data(y) == EntryBits(y) == 53856
  {
    assert ParseInt32("1kj0") == Some(53856);
    assert Entry(y) == "1kj0";
  }

  lemma Read1905(y: int)
    requires y == 1905
    ensures Data(y) == EntryBits(y) == 55632
  {
    assert ParseInt32("1mag") == Some(55632);
    assert Entry(y) == "1mag";
  }

  lemma Read1906(y: int)
    requires y == 1906
    ensures Data(y) == EntryBits(y) == 91476
  {
    assert ParseInt32("2pak") == Some(91476);
    assert Entry(y) == "2pak";
  }

  lemma Read1907(y: int)
    requires y == 1907
    ensures Data(y) == EntryBits(y) == 22176
  {
    assert ParseInt32("ll0") == Some(22176);
    assert Entry(y) == "ll0";
  }

  lemma Read1908(y: int)
    requires y == 1908
    ensures Data(y) == EntryBits(y) == 39632
  {
    assert ParseInt32("16mg") == Some(39632);
    assert Entry(y) == "16mg";
  }

  lemma Read1909(y: int)
    requires y == 1909
    ensures Data(y) == EntryBits(y) == 21970
  {
    assert ParseInt32("lei") == Some(21970);
    assert Entry(y) == "lei";
  }

  lemma Decade1900(y: int)
    requires 1900 <= y <= 1909
    ensures TableEntry(y)
  {
    if y == 1900 {
      Read1900(y);
    } else if y == 1901 {
      Read1901(y);
    } else if y == 1902 {
      Read1902(y);
    } else if y == 1903 {
      Read1903(y);
    } else if y == 1904 {
      Read1904(y);
    } else if y == 1905 {
      Read1905(y);
    } else if y == 1906 {
      Read1906(y);
    } else if y == 1907 {
      Read1907(y);
    } else if y == 1908 {
      Read1908(y);
    } else {
      Read1909(y);
    }
  }

  lemma Read1910(y: int)
    requires y == 1910
    ensures Data(y) == EntryBits(y) == 19168
  {
    assert ParseInt32("in0") == Some(19168);
    assert Entry(y) == "in0";
  }

  lemma Read1911(y: int)
    requires y == 1911
    ensures Data(y) == EntryBits(y) == 42422
  {
    assert ParseInt32("19dm") == Some(42422);
    assert Entry(y) == "19dm";
  }

  lemma Read1912(y: int)
    requires y == 1912
    ensures Data(y) == EntryBits(y) == 42192
  {
    assert ParseInt32("196g") == Some(42192);
    assert Entry(y) == "196g";
  }

  lemma Read1913(y: int)
    requires y == 1913
    ensures Data(y) == EntryBits(y) == 53840
  {
    assert ParseInt32("1kig") == Some(53840);
    assert Entry(y) == "1kig";
  }

  lemma Read1914(y: int)
    requires y == 1914
    ensures Data(y) == EntryBits(y) == 119381
  {
    assert ParseInt32("3kil") == Some(119381);
    assert Entry(y) == "3kil";
  }

  lemma Read1915(y: int)
    requires y == 1915
    ensures Data(y) == EntryBits(y) == 46400
  {
    assert ParseInt32("1da0") == Some(46400);
    assert Entry(y) == "1da0";
  }

  lemma Read1916(y: int)
    requires y == 1916
    ensures Data(y) == EntryBits(y) == 54944
  {
    assert ParseInt32("1ll0") == Some(54944);
    assert Entry(y) == "1ll0";
  }

  lemma Read1917(y: int)
    requires y == 1917
    ensures Data(y) == EntryBits(y) == 44450
  {
    assert ParseInt32("1bd2") == Some(44450);
    assert Entry(y) == "1bd2";
  }

  lemma Read1918(y: int)
    requires y == 1918
    ensures Data(y) == EntryBits(y) == 38320
  {
    assert ParseInt32("15dg") == Some(38320);
    assert Entry(y) == "15dg";
  }

  lemma Read1919(y: int)
    requires y == 1919
    ensures Data(y) == EntryBits(y) == 84343
  {
    assert ParseInt32("2ibn") == Some(84343);
    assert Entry(y) == "2ibn";
  }

  lemma Decade1910(y: int)
    requires 1910 <= y <= 1919
    ensures TableEntry(y)
  {
    if y == 1910 {
      Read1910(y);
    } else if y == 1911 {
      Read1911(y);
    } else if y == 1912 {
      Read1912(y);
    } else if y == 1913 {
      Read1913(y);
    } else if y == 1914 {
      Read1914(y);
    } else if y == 1915 {
      Read1915(y);
    } else if y == 1916 {
      Read1916(y);
    } else if y == 1917 {
      Read1917(y);
    } else if y == 1918 {
      Read1918(y);
    } else {
      Read1919(y);
    }
  }

  lemma Read1920(y: int)
    requires y == 1920
    ensures Data(y) == EntryBits(y) == 18800
  {
    assert ParseInt32("ibg") == Some(18800);
    assert Entry(y) == "ibg";
  }

  lemma Read1921(y: int)
    requires y == 1921
    ensures Data(y) == EntryBits(y) == 42160
  {
    assert ParseInt32("195g") == Some(42160);
    assert Entry(y) == "195g";
  }

  lemma Read1922(y: int)
    requires y == 1922
    ensures Data(y) == EntryBits(y) == 46261
  {
    assert ParseInt32("1d5l") == Some(46261);
    assert Entry(y) == "1d5l";
  }

  lemma Read1923(y: int)
    requires y == 1923
    ensures Data(y) == EntryBits(y) == 27216
  {
    assert ParseInt32("qig") == Some(27216);
    assert Entry(y) == "qig";
  }

  lemma Read1924(y: int)
    requires y == 1924
    ensures Data(y) == EntryBits(y) == 27968
  {
    assert ParseInt32("ra0") == Some(27968);
    assert Entry(y) == "ra0";
  }

  lemma Read1925(y: int)
    requires y == 1925
    ensures Data(y) == EntryBits(y) == 109396
  {
    assert ParseInt32("3aqk") == Some(109396);
    assert Entry(y) == "3aqk";
  }

  lemma Read1926(y: int)
    requires y == 1926
    ensures Data(y) == EntryBits(y) == 11104
  {
    assert ParseInt32("ar0") == Some(11104);
    assert Entry(y) == "ar0";
  }

  lemma Read1927(y: int)
    requires y == 1927
    ensures Data(y) == EntryBits(y) == 38256
  {
    assert ParseInt32("15bg") == Some(38256);
    assert Entry(y) == "15bg";
  }

  lemma Read1928(y: int)
    requires y == 1928
    ensures Data(y) == EntryBits(y) == 21234
  {
    assert ParseInt32("kni") == Some(21234);
    assert Entry(y) == "kni";
  }

  lemma Read1929(y: int)
    requires y == 1929
    ensures Data(y) == EntryBits(y) == 18800
  {
    assert ParseInt32("ibg") == Some(18800);
    assert Entry(y) == "ibg";
  }

  lemma Decade1920(y: int)
    requires 1920 <= y <= 1929
    ensures TableEntry(y)
  {
    if y == 1920 {
      Read1920(y);
    } else if y == 1921 {
      Read1921(y);
    } else if y == 1922 {
      Read1922(y);
    } else if y == 1923 {
      Read1923(y);
    } else if y == 1924 {
      Read1924(y);
    } else if y == 1925 {
      Read1925(y);
    } else if y == 1926 {
      Read1926(y);
    } else if y == 1927 {
      Read1927(y);
    } else if y == 1928 {
      Read1928(y);
    } else {
      Read1929(y);
    }
  }

  lemma Read1930(y: int)
    requires y == 1930
    ensures Data(y) == EntryBits(y) == 25958
  {
    assert ParseInt32("pb6") == Some(25958);
    assert Entry(y) == "pb6";
  }

  lemma Read1931(y: int)
    requires y == 1931
    ensures Data(y) == EntryBits(y) == 54432
  {
    assert ParseInt32("1l50") == Some(54432);
    assert Entry(y) == "1l50";
  }

  lemma Read1932(y: int)
    requires y == 1932
    ensures Data(y) == EntryBits(y) == 59984
  {
    assert ParseInt32("1qig") == Some(59984);
    assert Entry(y) == "1qig";
  }

  lemma Read1933(y: int)
    requires y == 1933
    ensures Data(y) == EntryBits(y) == 28309
  {
    assert ParseInt32("rkl") == Some(28309);
    assert Entry(y) == "rkl";
  }

  lemma Read1934(y: int)
    requires y == 1934
    ensures Data(y) == EntryBits(y) == 23248
  {
    assert ParseInt32("mmg") == Some(23248);
    assert Entry(y) == "mmg";
  }

  lemma Read1935(y: int)
    requires y == 1935
    ensures Data(y) == EntryBits(y) == 11104
  {
    assert ParseInt32("ar0") == Some(11104);
    assert Entry(y) == "ar0";
  }

  lemma Read1936(y: int)
    requires y == 1936
    ensures Data(y) == EntryBits(y) == 100067
  {
    assert ParseInt32("31n3") == Some(100067);
    assert Entry(y) == "31n3";
  }

  lemma Read1937(y: int)
    requires y == 1937
    ensures Data(y) == EntryBits(y) == 37600
  {
    assert ParseInt32("14n0") == Some(37600);
    assert Entry(y) == "14n0";
  }

  lemma Read1938(y: int)
    requires y == 1938
    ensures Data(y) == EntryBits(y) == 116951
  {
    assert ParseInt32("3i6n") == Some(116951);
    assert Entry(y) == "3i6n";
  }

  lemma Read1939(y: int)
    requires y == 1939
    ensures Data(y) == EntryBits(y) == 51536
  {
    assert ParseInt32("1iag") == Some(51536);
    assert Entry(y) == "1iag";
  }

  lemma Decade1930(y: int)
    requires 1930 <= y <= 1939
    ensures TableEntry(y)
  {
    if y == 1930 {
      Read1930(y);
    } else if y == 1931 {
      Read1931(y);
    } else if y == 1932 {
      Read1932(y);
    } else if y == 1933 {
      Read1933(y);
    } else if y == 1934 {
      Read1934(y);
    } else if y == 1935 {
      Read1935(y);
    } else if y == 1936 {
      Read1936(y);
    } else if y == 1937 {
      Read1937(y);
    } else if y == 1938 {
      Read1938(y);
    } else {
      Read1939(y);
    }
  }

  lemma Read1940(y: int)
    requires y == 1940
    ensures Data(y) == EntryBits(y) == 54432
  {
    assert ParseInt32("1l50") == Some(54432);
    assert Entry(y) == "1l50";
  }

  lemma Read1941(y: int)
    requires y == 1941
    ensures Data(y) == EntryBits(y) == 120998
  {
    assert ParseInt32("3m56") == Some(120998);
    assert Entry(y) == "3m56";
  }

  lemma Read1942(y: int)
    requires y == 1942
    ensures Data(y) == EntryBits(y) == 46416
  {
    assert ParseInt32("1dag") == Some(46416);
    assert Entry(y) == "1dag";
  }

  lemma Read1943(y: int)
    requires y == 1943
    ensures Data(y) == EntryBits(y) == 22176
  {
    assert ParseInt32("ll0") == Some(22176);
    assert Entry(y) == "ll0";
  }

  lemma Read1944(y: int)
    requires y == 1944
    ensures Data(y) == EntryBits(y) == 107956
  {
    assert ParseInt32("39dk") == Some(107956);
    assert Entry(y) == "39dk";
  }

  lemma Read1945(y: int)
    requires y == 1945
    ensures Data(y) == EntryBits(y) == 9680
  {
    assert ParseInt32("9eg") == Some(9680);
    assert Entry(y) == "9eg";
  }

  lemma Read1946(y: int)
    requires y == 1946
    ensures Data(y) == EntryBits(y) == 37584
  {
    assert ParseInt32("14mg") == Some(37584);
    assert Entry(y) == "14mg";
  }

  lemma Read1947(y: int)
    requires y == 1947
    ensures Data(y) == EntryBits(y) == 53938
  {
    assert ParseInt32("1kli") == Some(53938);
    assert Entry(y) == "1kli";
  }

  lemma Read1948(y: int)
    requires y == 1948
    ensures Data(y) == EntryBits(y) == 43344
  {
    assert ParseInt32("1aag") == Some(43344);
    assert Entry(y) == "1aag";
  }

  lemma Read1949(y: int)
    requires y == 1949
    ensures Data(y) == EntryBits(y) == 46423
  {
    assert ParseInt32("1dan") == Some(46423);
    assert Entry(y) == "1dan";
  }

  lemma Decade1940(y: int)
    requires 1940 <= y <= 1949
    ensures TableEntry(y)
  {
    if y == 1940 {
      Read1940(y);
    } else if y == 1941 {
      Read1941(y);
    } else if y == 1942 {
      Read1942(y);
    } else if y == 1943 {
      Read1943(y);
    } else if y == 1944 {
      Read1944(y);
    } else if y == 1945 {
      Read1945(y);
    } else if y == 1946 {
      Read1946(y);
    } else if y == 1947 {
      Read1947(y);
    } else if y == 1948 {
      Read1948(y);
    } else {
      Read1949(y);
    }
  }

  lemma Read1950(y: int)
    requires y == 1950
    ensures Data(y) == EntryBits(y) == 27808
  {
    assert ParseInt32("r50") == Some(27808);
    assert Entry(y) == "r50";
  }

  lemma Read1951(y: int)
    requires y == 1951
    ensures Data(y) == EntryBits(y) == 46416
  {
    assert ParseInt32("1dag") == Some(46416);
    assert Entry(y) == "1dag";
  }

  lemma Read1952(y: int)
    requires y == 1952
    ensures Data(y) == EntryBits(y) == 86869
  {
    assert ParseInt32("2kql") == Some(86869);
    assert Entry(y) == "2kql";
  }

  lemma Read1953(y: int)
    requires y == 1953
    ensures Data(y) == EntryBits(y) == 19872
  {
    assert ParseInt32("jd0") == Some(19872);
    assert Entry(y) == "jd0";
  }

  lemma Read1954(y: int)
    requires y == 1954
    ensures Data(y) == EntryBits(y) == 42416
  {
    assert ParseInt32("19dg") == Some(42416);
    assert Entry(y) == "19dg";
  }

  lemma Read1955(y: int)
    requires y == 1955
    ensures Data(y) == EntryBits(y) == 83315
  {
    assert ParseInt32("2hbj") == Some(83315);
    assert Entry(y) == "2hbj";
  }

  lemma Read1956(y: int)
    requires y == 1956
    ensures Data(y) == EntryBits(y) == 21168
  {
    assert ParseInt32("klg") == Some(21168);
    assert Entry(y) == "klg";
  }

  lemma Read1957(y: int)
    requires y == 1957
    ensures Data(y) == EntryBits(y) == 43432
  {
    assert ParseInt32("1ad8") == Some(43432);
    assert Entry(y) == "1ad8";
  }

  lemma Read1958(y: int)
    requires y == 1958
    ensures Data(y) == EntryBits(y) == 59728
  {
    assert ParseInt32("1qag") == Some(59728);
    assert Entry(y) == "1qag";
  }

  lemma Read1959(y: int)
    requires y == 1959
    ensures Data(y) == EntryBits(y) == 27296
  {
    assert ParseInt32("ql0") == Some(27296);
    assert Entry(y) == "ql0";
  }

  lemma Decade1950(y: int)
    requires 1950 <= y <= 1959
    ensures TableEntry(y)
  {
    if y == 1950 {
      Read1950(y);
    } else if y == 1951 {
      Read1951(y);
    } else if y == 1952 {
      Read1952(y);
    } else if y == 1953 {
      Read1953(y);
    } else if y == 1954 {
      Read1954(y);
    } else if y == 1955 {
      Read1955(y);
    } else if y == 1956 {
      Read1956(y);
    } else if y == 1957 {
      Read1957(y);
    } else if y == 1958 {
      Read1958(y);
    } else {
      Read1959(y);
    }
  }

  lemma Read1960(y: int)
    requires y == 1960
    ensures Data(y) == EntryBits(y) == 44710
  {
    assert ParseInt32("1bl6") == Some(44710);
    assert Entry(y) == "1bl6";
  }

  lemma Read1961(y: int)
    requires y == 1961
    ensures Data(y) == EntryBits(y) == 43856
  {
    assert ParseInt32("1aqg") == Some(43856);
    assert Entry(y) == "1aqg";
  }

  lemma Read1962(y: int)
    requires y == 1962
    ensures Data(y) == EntryBits(y) == 19296
  {
    assert ParseInt32("ir0") == Some(19296);
    assert Entry(y) == "ir0";
  }

  lemma Read1963(y: int)
    requires y == 1963
    ensures Data(y) == EntryBits(y) == 43748
  {
    assert ParseInt32("1an4") == Some(43748);
    assert Entry(y) == "1an4";
  }

  lemma Read1964(y: int)
    requires y == 1964
    ensures Data(y) == EntryBits(y) == 42352
  {
    assert ParseInt32("19bg") == Some(42352);
    assert Entry(y) == "19bg";
  }

  lemma Read1965(y: int)
    requires y == 1965
    ensures Data(y) == EntryBits(y) == 21088
  {
    assert ParseInt32("kj0") == Some(21088);
    assert Entry(y) == "kj0";
  }

  lemma Read1966(y: int)
    requires y == 1966
    ensures Data(y) == EntryBits(y) == 62051
  {
    assert ParseInt32("1sj3") == Some(62051);
    assert Entry(y) == "1sj3";
  }

  lemma Read1967(y: int)
    requires y == 1967
    ensures Data(y) == EntryBits(y) == 55632
  {
    assert ParseInt32("1mag") == Some(55632);
    assert Entry(y) == "1mag";
  }

  lemma Read1968(y: int)
    requires y == 1968
    ensures Data(y) == EntryBits(y) == 23383
  {
    assert ParseInt32("mqn") == Some(23383);
    assert Entry(y) == "mqn";
  }

  lemma Read1969(y: int)
    requires y == 1969
    ensures Data(y) == EntryBits(y) == 22176
  {
    assert ParseInt32("ll0") == Some(22176);
    assert Entry(y) == "ll0";
  }

  lemma Decade1960(y: int)
    requires 1960 <= y <= 1969
    ensures TableEntry(y)
  {
    if y == 1960 {
      Read1960(y);
    } else if y == 1961 {
      Read1961(y);
    } else if y == 1962 {
      Read1962(y);
    } else if y == 1963 {
      Read1963(y);
    } else if y == 1964 {
      Read1964(y);
    } else if y == 1965 {
      Read1965(y);
    } else if y == 1966 {
      Read1966(y);
    } else if y == 1967 {
      Read1967(y);
    } else if y == 1968 {
      Read1968(y);
    } else {
      Read1969(y);
    }
  }

  lemma Read1970(y: int)
    requires y == 1970
    ensures Data(y) == EntryBits(y) == 38608
  {
    assert ParseInt32("15mg") == Some(38608);
    assert Entry(y) == "15mg";
  }

  lemma Read1971(y: int)
    requires y == 1971
    ensures Data(y) == EntryBits(y) == 19925
  {
    assert ParseInt32("jel") == Some(19925);
    assert Entry(y) == "jel";
  }

  lemma Read1972(y: int)
    requires y == 1972
    ensures Data(y) == EntryBits(y) == 19152
  {
    assert ParseInt32("img") == Some(19152);
    assert Entry(y) == "img";
  }

  lemma Read1973(y: int)
    requires y == 1973
    ensures Data(y) == EntryBits(y) == 42192
  {
    assert ParseInt32("196g") == Some(42192);
    assert Entry(y) == "196g";
  }

  lemma Read1974(y: int)
    requires y == 1974
    ensures Data(y) == EntryBits(y) == 54484
  {
    assert ParseInt32("1l6k") == Some(54484);
    assert Entry(y) == "1l6k";
  }

  lemma Read1975(y: int)
    requires y == 1975
    ensures Data(y) == EntryBits(y) == 53840
  {
    assert ParseInt32("1kig") == Some(53840);
    assert Entry(y) == "1kig";
  }

  lemma Read1976(y: int)
    requires y == 1976
    ensures Data(y) == EntryBits(y) == 54616
  {
    assert ParseInt32("1lao") == Some(54616);
    assert Entry(y) == "1lao";
  }

  lemma Read1977(y: int)
    requires y == 1977
    ensures Data(y) == EntryBits(y) == 46400
  {
    assert ParseInt32("1da0") == Some(46400);
    assert Entry(y) == "1da0";
  }

  lemma Read1978(y: int)
    requires y == 1978
    ensures Data(y) == EntryBits(y) == 46752
  {
    assert ParseInt32("1dl0") == Some(46752);
    assert Entry(y) == "1dl0";
  }

  lemma Read1979(y: int)
    requires y == 1979
    ensures Data(y) == EntryBits(y) == 103846
  {
    assert ParseInt32("35d6") == Some(103846);
    assert Entry(y) == "35d6";
  }

  lemma Decade1970(y: int)
    requires 1970 <= y <= 1979
    ensures TableEntry(y)
  {
    if y == 1970 {
      Read1970(y);
    } else if y == 1971 {
      Read1971(y);
    } else if y == 1972 {
      Read1972(y);
    } else if y == 1973 {
      Read1973(y);
    } else if y == 1974 {
      Read1974(y);
    } else if y == 1975 {
      Read1975(y);
    } else if y == 1976 {
      Read1976(y);
    } else if y == 1977 {
      Read1977(y);
    } else if y == 1978 {
      Read1978(y);
    } else {
      Read1979(y);
    }
  }

  lemma Read1980(y: int)
    requires y == 1980
    ensures Data(y) == EntryBits(y) == 38320
  {
    assert ParseInt32("15dg") == Some(38320);
    assert Entry(y) == "15dg";
  }

  lemma Read1981(y: int)
    requires y == 1981
    ensures Data(y) == EntryBits(y) == 18864
  {
    assert ParseInt32("idg") == Some(18864);
    assert Entry(y) == "idg";
  }

  lemma Read1982(y: int)
    requires y == 1982
    ensures Data(y) == EntryBits(y) == 43380
  {
    assert ParseInt32("1abk") == Some(43380);
    assert Entry(y) == "1abk";
  }

  lemma Read1983(y: int)
    requires y == 1983
    ensures Data(y) == EntryBits(y) == 42160
  {
    assert ParseInt32("195g") == Some(42160);
    assert Entry(y) == "195g";
  }

  lemma Read1984(y: int)
    requires y == 1984
    ensures Data(y) == EntryBits(y) == 45690
  {
    assert ParseInt32("1cjq") == Some(45690);
    assert Entry(y) == "1cjq";
  }

  lemma Read1985(y: int)
    requires y == 1985
    ensures Data(y) == EntryBits(y) == 27216
  {
    assert ParseInt32("qig") == Some(27216);
    assert Entry(y) == "qig";
  }

  lemma Read1986(y: int)
    requires y == 1986
    ensures Data(y) == EntryBits(y) == 27968
  {
    assert ParseInt32("ra0") == Some(27968);
    assert Entry(y) == "ra0";
  }

  lemma Read1987(y: int)
    requires y == 1987
    ensures Data(y) == EntryBits(y) == 44870
  {
    assert ParseInt32("1bq6") == Some(44870);
    assert Entry(y) == "1bq6";
  }

  lemma Read1988(y: int)
    requires y == 1988
    ensures Data(y) == EntryBits(y) == 43872
  {
    assert ParseInt32("1ar0") == Some(43872);
    assert Entry(y) == "1ar0";
  }

  lemma Read1989(y: int)
    requires y == 1989
    ensures Data(y) == EntryBits(y) == 38256
  {
    assert ParseInt32("15bg") == Some(38256);
    assert Entry(y) == "15bg";
  }

  lemma Decade1980(y: int)
    requires 1980 <= y <= 1989
    ensures TableEntry(y)
  {
    if y == 1980 {
      Read1980(y);
    } else if y == 1981 {
      Read1981(y);
    } else if y == 1982 {
      Read1982(y);
    } else if y == 1983 {
      Read1983(y);
    } else if y == 1984 {
      Read1984(y);
    } else if y == 1985 {
      Read1985(y);
    } else if y == 1986 {
      Read1986(y);
    } else if y == 1987 {
      Read1987(y);
    } else if y == 1988 {
      Read1988(y);
    } else {
      Read1989(y);
    }
  }

  lemma Read1990(y: int)
    requires y == 1990
    ensures Data(y) == EntryBits(y) == 19189
  {
    assert ParseInt32("inl") == Some(19189);
    assert Entry(y) == "inl";
  }

  lemma Read1991(y: int)
    requires y == 1991
    ensures Data(y) == EntryBits(y) == 18800
  {
    assert ParseInt32("ibg") == Some(18800);
    assert Entry(y) == "ibg";
  }

  lemma Read1992(y: int)
    requires y == 1992
    ensures Data(y) == EntryBits(y) == 25776
  {
    assert ParseInt32("p5g") == Some(25776);
    assert Entry(y) == "p5g";
  }

  lemma Read1993(y: int)
    requires y == 1993
    ensures Data(y) == EntryBits(y) == 29859
  {
    assert ParseInt32("t53") == Some(29859);
    assert Entry(y) == "t53";
  }

  lemma Read1994(y: int)
    requires y == 1994
    ensures Data(y) == EntryBits(y) == 59984
  {
    assert ParseInt32("1qig") == Some(59984);
    assert Entry(y) == "1qig";
  }

  lemma Read1995(y: int)
    requires y == 1995
    ensures Data(y) == EntryBits(y) == 27480
  {
    assert ParseInt32("qqo") == Some(27480);
    assert Entry(y) == "qqo";
  }

  lemma Read1996(y: int)
    requires y == 1996
    ensures Data(y) == EntryBits(y) == 21952
  {
    assert ParseInt32("le0") == Some(21952);
    assert Entry(y) == "le0";
  }

  lemma Read1997(y: int)
    requires y == 1997
    ensures Data(y) == EntryBits(y) == 43872
  {
    assert ParseInt32("1ar0") == Some(43872);
    assert Entry(y) == "1ar0";
  }

  lemma Read1998(y: int)
    requires y == 1998
    ensures Data(y) == EntryBits(y) == 38613
  {
    assert ParseInt32("15ml") == Some(38613);
    assert Entry(y) == "15ml";
  }

  lemma Read1999(y: int)
    requires y == 1999
    ensures Data(y) == EntryBits(y) == 37600
  {
    assert ParseInt32("14n0") == Some(37600);
    assert Entry(y) == "14n0";
  }

  lemma Decade1990(y: int)
    requires 1990 <= y <= 1999
    ensures TableEntry(y)
  {
    if y == 1990 {
      Read1990(y);
    } else if y == 1991 {
      Read1991(y);
    } else if y == 1992 {
      Read1992(y);
    } else if y == 1993 {
      Read1993(y);
    } else if y == 1994 {
      Read1994(y);
    } else if y == 1995 {
      Read1995(y);
    } else if y == 1996 {
      Read1996(y);
    } else if y == 1997 {
      Read1997(y);
    } else if y == 1998 {
      Read1998(y);
    } else {
      Read1999(y);
    }
  }

  lemma Read2000(y: int)
    requires y == 2000
    ensures Data(y) == EntryBits(y) == 51552
  {
    assert ParseInt32("1ib0") == Some(51552);
    assert Entry(y) == "1ib0";
  }

  lemma Read2001(y: int)
    requires y == 2001
    ensures Data(y) == EntryBits(y) == 55636
  {
    assert ParseInt32("1mak") == Some(55636);
    assert Entry(y) == "1mak";
  }

  lemma Read2002(y: int)
    requires y == 2002
    ensures Data(y) == EntryBits(y) == 54432
  {
    assert ParseInt32("1l50") == Some(54432);
    assert Entry(y) == "1l50";
  }

  lemma Read2003(y: int)
    requires y == 2003
    ensures Data(y) == EntryBits(y) == 55888
  {
    assert ParseInt32("1mig") == Some(55888);
    assert Entry(y) == "1mig";
  }

  lemma Read2004(y: int)
    requires y == 2004
    ensures Data(y) == EntryBits(y) == 30034
  {
    assert ParseInt32("tai") == Some(30034);
    assert Entry(y) == "tai";
  }

  lemma Read2005(y: int)
    requires y == 2005
    ensures Data(y) == EntryBits(y) == 22176
  {
    assert ParseInt32("ll0") == Some(22176);
    assert Entry(y) == "ll0";
  }

  lemma Read2006(y: int)
    requires y == 2006
    ensures Data(y) == EntryBits(y) == 43959
  {
    assert ParseInt32("1atn") == Some(43959);
    assert Entry(y) == "1atn";
  }

  lemma Read2007(y: int)
    requires y == 2007
    ensures Data(y) == EntryBits(y) == 9680
  {
    assert ParseInt32("9eg") == Some(9680);
    assert Entry(y) == "9eg";
  }

  lemma Read2008(y: int)
    requires y == 2008
    ensures Data(y) == EntryBits(y) == 37584
  {
    assert ParseInt32("14mg") == Some(37584);
    assert Entry(y) == "14mg";
  }

  lemma Read2009(y: int)
    requires y == 2009
    ensures Data(y) == EntryBits(y) == 51893
  {
    assert ParseInt32("1ill") == Some(51893);
    assert Entry(y) == "1ill";
  }

  lemma Decade2000(y: int)
    requires 2000 <= y <= 2009
    ensures TableEntry(y)
  {
    if y == 2000 {
      Read2000(y);
    } else if y == 2001 {
      Read2001(y);
    } else if y == 2002 {
      Read2002(y);
    } else if y == 2003 {
      Read2003(y);
    } else if y == 2004 {
      Read2004(y);
    } else if y == 2005 {
      Read2005(y);
    } else if y == 2006 {
      Read2006(y);
    } else if y == 2007 {
      Read2007(y);
    } else if y == 2008 {
      Read2008(y);
    } else {
      Read2009(y);
    }
  }

  lemma Read2010(y: int)
    requires y == 2010
    ensures Data(y) == EntryBits(y) == 43344
  {
    assert ParseInt32("1aag") == Some(43344);
    assert Entry(y) == "1aag";
  }

  lemma Read2011(y: int)
    requires y == 2011
    ensures Data(y) == EntryBits(y) == 46240
  {
    assert ParseInt32("1d50") == Some(46240);
    assert Entry(y) == "1d50";
  }

  lemma Read2012(y: int)
    requires y == 2012
    ensures Data(y) == EntryBits(y) == 47780
  {
    assert ParseInt32("1el4") == Some(47780);
    assert Entry(y) == "1el4";
  }

  lemma Read2013(y: int)
    requires y == 2013
    ensures Data(y) == EntryBits(y) == 44368
  {
    assert ParseInt32("1bag") == Some(44368);
    assert Entry(y) == "1bag";
  }

  lemma Read2014(y: int)
    requires y == 2014
    ensures Data(y) == EntryBits(y) == 21977
  {
    assert ParseInt32("lep") == Some(21977);
    assert Entry(y) == "lep";
  }

  lemma Read2015(y: int)
    requires y == 2015
    ensures Data(y) == EntryBits(y) == 19360
  {
    assert ParseInt32("it0") == Some(19360);
    assert Entry(y) == "it0";
  }

  lemma Read2016(y: int)
    requires y == 2016
    ensures Data(y) == EntryBits(y) == 42416
  {
    assert ParseInt32("19dg") == Some(42416);
    assert Entry(y) == "19dg";
  }

  lemma Read2017(y: int)
    requires y == 2017
    ensures Data(y) == EntryBits(y) == 86390
  {
    assert ParseInt32("2kbm") == Some(86390);
    assert Entry(y) == "2kbm";
  }

  lemma Read2018(y: int)
    requires y == 2018
    ensures Data(y) == EntryBits(y) == 21168
  {
    assert ParseInt32("klg") == Some(21168);
    assert Entry(y) == "klg";
  }

  lemma Read2019(y: int)
    requires y == 2019
    ensures Data(y) == EntryBits(y) == 43312
  {
    assert ParseInt32("1a9g") == Some(43312);
    assert Entry(y) == "1a9g";
  }

  lemma Decade2010(y: int)
    requires 2010 <= y <= 2019
    ensures TableEntry(y)
  {
    if y == 2010 {
      Read2010(y);
    } else if y == 2011 {
      Read2011(y);
    } else if y == 2012 {
      Read2012(y);
    } else if y == 2013 {
      Read2013(y);
    } else if y == 2014 {
      Read2014(y);
    } else if y == 2015 {
      Read2015(y);
    } else if y == 2016 {
      Read2016(y);
    } else if y == 2017 {
      Read2017(y);
    } else if y == 2018 {
      Read2018(y);
    } else {
      Read2019(y);
    }
  }

  lemma Read2020(y: int)
    requires y == 2020
    ensures Data(y) == EntryBits(y) == 31060
  {
    assert ParseInt32("uak") == Some(31060);
    assert Entry(y) == "uak";
  }

  lemma Read2021(y: int)
    requires y == 2021
    ensures Data(y) == EntryBits(y) == 27296
  {
    assert ParseInt32("ql0") == Some(27296);
    assert Entry(y) == "ql0";
  }

  lemma Read2022(y: int)
    requires y == 2022
    ensures Data(y) == EntryBits(y) == 44368
  {
    assert ParseInt32("1bag") == Some(44368);
    assert Entry(y) == "1bag";
  }

  lemma Read2023(y: int)
    requires y == 2023
    ensures Data(y) == EntryBits(y) == 23378
  {
    assert ParseInt32("mqi") == Some(23378);
    assert Entry(y) == "mqi";
  }

  lemma Read2024(y: int)
    requires y == 2024
    ensures Data(y) == EntryBits(y) == 19296
  {
    assert ParseInt32("ir0") == Some(19296);
    assert Entry(y) == "ir0";
  }

  lemma Read2025(y: int)
    requires y == 2025
    ensures Data(y) == EntryBits(y) == 42726
  {
    assert ParseInt32("19n6") == Some(42726);
    assert Entry(y) == "19n6";
  }

  lemma Read2026(y: int)
    requires y == 2026
    ensures Data(y) == EntryBits(y) == 42208
  {
    assert ParseInt32("1970") == Some(42208);
    assert Entry(y) == "1970";
  }

  lemma Read2027(y: int)
    requires y == 2027
    ensures Data(y) == EntryBits(y) == 53856
  {
    assert ParseInt32("1kj0") == Some(53856);
    assert Entry(y) == "1kj0";
  }

  lemma Read2028(y: int)
    requires y == 2028
    ensures Data(y) == EntryBits(y) == 60005
  {
    assert ParseInt32("1qj5") == Some(60005);
    assert Entry(y) == "1qj5";
  }

  lemma Read2029(y: int)
    requires y == 2029
    ensures Data(y) == EntryBits(y) == 54576
  {
    assert ParseInt32("1l9g") == Some(54576);
    assert Entry(y) == "1l9g";
  }

  lemma Decade2020(y: int)
    requires 2020 <= y <= 2029
    ensures TableEntry(y)
  {
    if y == 2020 {
      Read2020(y);
    } else if y == 2021 {
      Read2021(y);
    } else if y == 2022 {
      Read2022(y);
    } else if y == 2023 {
      Read2023(y);
    } else if y == 2024 {
      Read2024(y);
    } else if y == 2025 {
      Read2025(y);
    } else if y == 2026 {
      Read2026(y);
    } else if y == 2027 {
      Read2027(y);
    } else if y == 2028 {
      Read2028(y);
    } else {
      Read2029(y);
    }
  }

  lemma Read2030(y: int)
    requires y == 2030
    ensures Data(y) == EntryBits(y) == 23200
  {
    assert ParseInt32("ml0") == Some(23200);
    assert Entry(y) == "ml0";
  }

  lemma Read2031(y: int)
    requires y == 2031
    ensures Data(y) == EntryBits(y) == 30371
  {
    assert ParseInt32("tl3") == Some(30371);
    assert Entry(y) == "tl3";
  }

  lemma Read2032(y: int)
    requires y == 2032
    ensures Data(y) == EntryBits(y) == 38608
  {
    assert ParseInt32("15mg") == Some(38608);
    assert Entry(y) == "15mg";
  }

  lemma Read2033(y: int)
    requires y == 2033
    ensures Data(y) == EntryBits(y) == 19195
  {
    assert ParseInt32("inr") == Some(19195);
    assert Entry(y) == "inr";
  }

  lemma Read2034(y: int)
    requires y == 2034
    ensures Data(y) == EntryBits(y) == 19152
  {
    assert ParseInt32("img") == Some(19152);
    assert Entry(y) == "img";
  }

  lemma Read2035(y: int)
    requires y == 2035
    ensures Data(y) == EntryBits(y) == 42192
  {
    assert ParseInt32("196g") == Some(42192);
    assert Entry(y) == "196g";
  }

  lemma Read2036(y: int)
    requires y == 2036
    ensures Data(y) == EntryBits(y) == 118966
  {
    assert ParseInt32("3k5m") == Some(118966);
    assert Entry(y) == "3k5m";
  }

  lemma Read2037(y: int)
    requires y == 2037
    ensures Data(y) == EntryBits(y) == 53840
  {
    assert ParseInt32("1kig") == Some(53840);
    assert Entry(y) == "1kig";
  }

  lemma Read2038(y: int)
    requires y == 2038
    ensures Data(y) == EntryBits(y) == 54560
  {
    assert ParseInt32("1l90") == Some(54560);
    assert Entry(y) == "1l90";
  }

  lemma Read2039(y: int)
    requires y == 2039
    ensures Data(y) == EntryBits(y) == 56645
  {
    assert ParseInt32("1na5") == Some(56645);
    assert Entry(y) == "1na5";
  }

  lemma Decade2030(y: int)
    requires 2030 <= y <= 2039
    ensures TableEntry(y)
  {
    if y == 2030 {
      Read2030(y);
    } else if y == 2031 {
      Read2031(y);
    } else if y == 2032 {
      Read2032(y);
    } else if y == 2033 {
      Read2033(y);
    } else if y == 2034 {
      Read2034(y);
    } else if y == 2035 {
      Read2035(y);
    } else if y == 2036 {
      Read2036(y);
    } else if y == 2037 {
      Read2037(y);
    } else if y == 2038 {
      Read2038(y);
    } else {
      Read2039(y);
    }
  }

  lemma Read2040(y: int)
    requires y == 2040
    ensures Data(y) == EntryBits(y) == 46496
  {
    assert ParseInt32("1dd0") == Some(46496);
    assert Entry(y) == "1dd0";
  }

  lemma Read2041(y: int)
    requires y == 2041
    ensures Data(y) == EntryBits(y) == 22224
  {
    assert ParseInt32("lmg") == Some(22224);
    assert Entry(y) == "lmg";
  }

  lemma Read2042(y: int)
    requires y == 2042
    ensures Data(y) == EntryBits(y) == 21938
  {
    assert ParseInt32("ldi") == Some(21938);
    assert Entry(y) == "ldi";
  }

  lemma Read2043(y: int)
    requires y == 2043
    ensures Data(y) == EntryBits(y) == 18864
  {
    assert ParseInt32("idg") == Some(18864);
    assert Entry(y) == "idg";
  }

  lemma Read2044(y: int)
    requires y == 2044
    ensures Data(y) == EntryBits(y) == 42359
  {
    assert ParseInt32("19bn") == Some(42359);
    assert Entry(y) == "19bn";
  }

  lemma Read2045(y: int)
    requires y == 2045
    ensures Data(y) == EntryBits(y) == 42160
  {
    assert ParseInt32("195g") == Some(42160);
    assert Entry(y) == "195g";
  }

  lemma Read2046(y: int)
    requires y == 2046
    ensures Data(y) == EntryBits(y) == 43600
  {
    assert ParseInt32("1aig") == Some(43600);
    assert Entry(y) == "1aig";
  }

  lemma Read2047(y: int)
    requires y == 2047
    ensures Data(y) == EntryBits(y) == 111189
  {
    assert ParseInt32("3cil") == Some(111189);
    assert Entry(y) == "3cil";
  }

  lemma Read2048(y: int)
    requires y == 2048
    ensures Data(y) == EntryBits(y) == 27936
  {
    assert ParseInt32("r90") == Some(27936);
    assert Entry(y) == "r90";
  }

  lemma Read2049(y: int)
    requires y == 2049
    ensures Data(y) == EntryBits(y) == 44448
  {
    assert ParseInt32("1bd0") == Some(44448);
    assert Entry(y) == "1bd0";
  }

  lemma Decade2040(y: int)
    requires 2040 <= y <= 2049
    ensures TableEntry(y)
  {
    if y == 2040 {
      Read2040(y);
    } else if y == 2041 {
      Read2041(y);
    } else if y == 2042 {
      Read2042(y);
    } else if y == 2043 {
      Read2043(y);
    } else if y == 2044 {
      Read2044(y);
    } else if y == 2045 {
      Read2045(y);
    } else if y == 2046 {
      Read2046(y);
    } else if y == 2047 {
      Read2047(y);
    } else if y == 2048 {
      Read2048(y);
    } else {
      Read2049(y);
    }
  }

  lemma Read2050(y: int)
    requires y == 2050
    ensures Data(y) == EntryBits(y) == 84835
  {
    assert ParseInt32("2ir3") == Some(84835);
    assert Entry(y) == "2ir3";
  }

  lemma Read2051(y: int)
    requires y == 2051
    ensures Data(y) == EntryBits(y) == 37744
  {
    assert ParseInt32("14rg") == Some(37744);
    assert Entry(y) == "14rg";
  }

  lemma Read2052(y: int)
    requires y == 2052
    ensures Data(y) == EntryBits(y) == 18936
  {
    assert ParseInt32("ifo") == Some(18936);
    assert Entry(y) == "ifo";
  }

  lemma Read2053(y: int)
    requires y == 2053
    ensures Data(y) == EntryBits(y) == 18800
  {
    assert ParseInt32("ibg") == Some(18800);
    assert Entry(y) == "ibg";
  }

  lemma Read2054(y: int)
    requires y == 2054
    ensures Data(y) == EntryBits(y) == 25776
  {
    assert ParseInt32("p5g") == Some(25776);
    assert Entry(y) == "p5g";
  }

  lemma Read2055(y: int)
    requires y == 2055
    ensures Data(y) == EntryBits(y) == 92326
  {
    assert ParseInt32("2q56") == Some(92326);
    assert Entry(y) == "2q56";
  }

  lemma Read2056(y: int)
    requires y == 2056
    ensures Data(y) == EntryBits(y) == 59984
  {
    assert ParseInt32("1qig") == Some(59984);
    assert Entry(y) == "1qig";
  }

  lemma Read2057(y: int)
    requires y == 2057
    ensures Data(y) == EntryBits(y) == 27424
  {
    assert ParseInt32("qp0") == Some(27424);
    assert Entry(y) == "qp0";
  }

  lemma Read2058(y: int)
    requires y == 2058
    ensures Data(y) == EntryBits(y) == 108228
  {
    assert ParseInt32("39m4") == Some(108228);
    assert Entry(y) == "39m4";
  }

  lemma Read2059(y: int)
    requires y == 2059
    ensures Data(y) == EntryBits(y) == 43744
  {
    assert ParseInt32("1an0") == Some(43744);
    assert Entry(y) == "1an0";
  }

  lemma Decade2050(y: int)
    requires 2050 <= y <= 2059
    ensures TableEntry(y)
  {
    if y == 2050 {
      Read2050(y);
    } else if y == 2051 {
      Read2051(y);
    } else if y == 2052 {
      Read2052(y);
    } else if y == 2053 {
      Read2053(y);
    } else if y == 2054 {
      Read2054(y);
    } else if y == 2055 {
      Read2055(y);
    } else if y == 2056 {
      Read2056(y);
    } else if y == 2057 {
      Read2057(y);
    } else if y == 2058 {
      Read2058(y);
    } else {
      Read2059(y);
    }
  }

  lemma Read2060(y: int)
    requires y == 2060
    ensures Data(y) == EntryBits(y) == 41696
  {
    assert ParseInt32("18n0") == Some(41696);
    assert Entry(y) == "18n0";
  }

  lemma Read2061(y: int)
    requires y == 2061
    ensures Data(y) == EntryBits(y) == 53987
  {
    assert ParseInt32("1kn3") == Some(53987);
    assert Entry(y) == "1kn3";
  }

  lemma Read2062(y: int)
    requires y == 2062
    ensures Data(y) == EntryBits(y) == 51552
  {
    assert ParseInt32("1ib0") == Some(51552);
    assert Entry(y) == "1ib0";
  }

  lemma Read2063(y: int)
    requires y == 2063
    ensures Data(y) == EntryBits(y) == 54615
  {
    assert ParseInt32("1lan") == Some(54615);
    assert Entry(y) == "1lan";
  }

  lemma Read2064(y: int)
    requires y == 2064
    ensures Data(y) == EntryBits(y) == 54432
  {
    assert ParseInt32("1l50") == Some(54432);
    assert Entry(y) == "1l50";
  }

  lemma Read2065(y: int)
    requires y == 2065
    ensures Data(y) == EntryBits(y) == 55888
  {
    assert ParseInt32("1mig") == Some(55888);
    assert Entry(y) == "1mig";
  }

  lemma Read2066(y: int)
    requires y == 2066
    ensures Data(y) == EntryBits(y) == 23893
  {
    assert ParseInt32("nal") == Some(23893);
    assert Entry(y) == "nal";
  }

  lemma Read2067(y: int)
    requires y == 2067
    ensures Data(y) == EntryBits(y) == 22176
  {
    assert ParseInt32("ll0") == Some(22176);
    assert Entry(y) == "ll0";
  }

  lemma Read2068(y: int)
    requires y == 2068
    ensures Data(y) == EntryBits(y) == 42704
  {
    assert ParseInt32("19mg") == Some(42704);
    assert Entry(y) == "19mg";
  }

  lemma Read2069(y: int)
    requires y == 2069
    ensures Data(y) == EntryBits(y) == 21972
  {
    assert ParseInt32("lek") == Some(21972);
    assert Entry(y) == "lek";
  }

  lemma Decade2060(y: int)
    requires 2060 <= y <= 2069
    ensures TableEntry(y)
  {
    if y == 2060 {
      Read2060(y);
    } else if y == 2061 {
      Read2061(y);
    } else if y == 2062 {
      Read2062(y);
    } else if y == 2063 {
      Read2063(y);
    } else if y == 2064 {
      Read2064(y);
    } else if y == 2065 {
      Read2065(y);
    } else if y == 2066 {
      Read2066(y);
    } else if y == 2067 {
      Read2067(y);
    } else if y == 2068 {
      Read2068(y);
    } else {
      Read2069(y);
    }
  }

  lemma Read2070(y: int)
    requires y == 2070
    ensures Data(y) == EntryBits(y) == 21200
  {
    assert ParseInt32("kmg") == Some(21200);
    assert Entry(y) == "kmg";
  }

  lemma Read2071(y: int)
    requires y == 2071
    ensures Data(y) == EntryBits(y) == 43448
  {
    assert ParseInt32("1ado") == Some(43448);
    assert Entry(y) == "1ado";
  }

  lemma Read2072(y: int)
    requires y == 2072
    ensures Data(y) == EntryBits(y) == 43344
  {
    assert ParseInt32("1aag") == Some(43344);
    assert Entry(y) == "1aag";
  }

  lemma Read2073(y: int)
    requires y == 2073
    ensures Data(y) == EntryBits(y) == 46240
  {
    assert ParseInt32("1d50") == Some(46240);
    assert Entry(y) == "1d50";
  }

  lemma Read2074(y: int)
    requires y == 2074
    ensures Data(y) == EntryBits(y) == 46758
  {
    assert ParseInt32("1dl6") == Some(46758);
    assert Entry(y) == "1dl6";
  }

  lemma Read2075(y: int)
    requires y == 2075
    ensures Data(y) == EntryBits(y) == 44368
  {
    assert ParseInt32("1bag") == Some(44368);
    assert Entry(y) == "1bag";
  }

  lemma Read2076(y: int)
    requires y == 2076
    ensures Data(y) == EntryBits(y) == 21920
  {
    assert ParseInt32("ld0") == Some(21920);
    assert Entry(y) == "ld0";
  }

  lemma Read2077(y: int)
    requires y == 2077
    ensures Data(y) == EntryBits(y) == 43940
  {
    assert ParseInt32("1at4") == Some(43940);
    assert Entry(y) == "1at4";
  }

  lemma Read2078(y: int)
    requires y == 2078
    ensures Data(y) == EntryBits(y) == 42416
  {
    assert ParseInt32("19dg") == Some(42416);
    assert Entry(y) == "19dg";
  }

  lemma Read2079(y: int)
    requires y == 2079
    ensures Data(y) == EntryBits(y) == 21168
  {
    assert ParseInt32("klg") == Some(21168);
    assert Entry(y) == "klg";
  }

  lemma Decade2070(y: int)
    requires 2070 <= y <= 2079
    ensures TableEntry(y)
  {
    if y == 2070 {
      Read2070(y);
    } else if y == 2071 {
      Read2071(y);
    } else if y == 2072 {
      Read2072(y);
    } else if y == 2073 {
      Read2073(y);
    } else if y == 2074 {
      Read2074(y);
    } else if y == 2075 {
      Read2075(y);
    } else if y == 2076 {
      Read2076(y);
    } else if y == 2077 {
      Read2077(y);
    } else if y == 2078 {
      Read2078(y);
    } else {
      Read2079(y);
    }
  }

  lemma Read2080(y: int)
    requires y == 2080
    ensures Data(y) == EntryBits(y) == 45683
  {
    assert ParseInt32("1cjj") == Some(45683);
    assert Entry(y) == "1cjj";
  }

  lemma Read2081(y: int)
    requires y == 2081
    ensures Data(y) == EntryBits(y) == 26928
  {
    assert ParseInt32("q9g") == Some(26928);
    assert Entry(y) == "q9g";
  }

  lemma Read2082(y: int)
    requires y == 2082
    ensures Data(y) == EntryBits(y) == 29495
  {
    assert ParseInt32("spn") == Some(29495);
    assert Entry(y) == "spn";
  }

  lemma Read2083(y: int)
    requires y == 2083
    ensures Data(y) == EntryBits(y) == 27296
  {
    assert ParseInt32("ql0") == Some(27296);
    assert Entry(y) == "ql0";
  }

  lemma Read2084(y: int)
    requires y == 2084
    ensures Data(y) == EntryBits(y) == 44368
  {
    assert ParseInt32("1bag") == Some(44368);
    assert Entry(y) == "1bag";
  }

  lemma Read2085(y: int)
    requires y == 2085
    ensures Data(y) == EntryBits(y) == 84821
  {
    assert ParseInt32("2iql") == Some(84821);
    assert Entry(y) == "2iql";
  }

  lemma Read2086(y: int)
    requires y == 2086
    ensures Data(y) == EntryBits(y) == 19296
  {
    assert ParseInt32("ir0") == Some(19296);
    assert Entry(y) == "ir0";
  }

  lemma Read2087(y: int)
    requires y == 2087
    ensures Data(y) == EntryBits(y) == 42352
  {
    assert ParseInt32("19bg") == Some(42352);
    assert Entry(y) == "19bg";
  }

  lemma Read2088(y: int)
    requires y == 2088
    ensures Data(y) == EntryBits(y) == 21732
  {
    assert ParseInt32("l74") == Some(21732);
    assert Entry(y) == "l74";
  }

  lemma Read2089(y: int)
    requires y == 2089
    ensures Data(y) == EntryBits(y) == 53600
  {
    assert ParseInt32("1kb0") == Some(53600);
    assert Entry(y) == "1kb0";
  }

  lemma Decade2080(y: int)
    requires 2080 <= y <= 2089
    ensures TableEntry(y)
  {
    if y == 2080 {
      Read2080(y);
    } else if y == 2081 {
      Read2081(y);
    } else if y == 2082 {
      Read2082(y);
    } else if y == 2083 {
      Read2083(y);
    } else if y == 2084 {
      Read2084(y);
    } else if y == 2085 {
      Read2085(y);
    } else if y == 2086 {
      Read2086(y);
    } else if y == 2087 {
      Read2087(y);
    } else if y == 2088 {
      Read2088(y);
    } else {
      Read2089(y);
    }
  }

  lemma Read2090(y: int)
    requires y == 2090
    ensures Data(y) == EntryBits(y) == 59752
  {
    assert ParseInt32("1qb8") == Some(59752);
    assert Entry(y) == "1qb8";
  }

  lemma Read2091(y: int)
    requires y == 2091
    ensures Data(y) == EntryBits(y) == 54560
  {
    assert ParseInt32("1l90") == Some(54560);
    assert Entry(y) == "1l90";
  }

  lemma Read2092(y: int)
    requires y == 2092
    ensures Data(y) == EntryBits(y) == 55968
  {
    assert ParseInt32("1ml0") == Some(55968);
    assert Entry(y) == "1ml0";
  }

  lemma Read2093(y: int)
    requires y == 2093
    ensures Data(y) == EntryBits(y) == 92838
  {
    assert ParseInt32("2ql6") == Some(92838);
    assert Entry(y) == "2ql6";
  }

  lemma Read2094(y: int)
    requires y == 2094
    ensures Data(y) == EntryBits(y) == 22224
  {
    assert ParseInt32("lmg") == Some(22224);
    assert Entry(y) == "lmg";
  }

  lemma Read2095(y: int)
    requires y == 2095
    ensures Data(y) == EntryBits(y) == 19168
  {
    assert ParseInt32("in0") == Some(19168);
    assert Entry(y) == "in0";
  }

  lemma Read2096(y: int)
    requires y == 2096
    ensures Data(y) == EntryBits(y) == 43476
  {
    assert ParseInt32("1aek") == Some(43476);
    assert Entry(y) == "1aek";
  }

  lemma Read2097(y: int)
    requires y == 2097
    ensures Data(y) == EntryBits(y) == 41680
  {
    assert ParseInt32("18mg") == Some(41680);
    assert Entry(y) == "18mg";
  }

  lemma Read2098(y: int)
    requires y == 2098
    ensures Data(y) == EntryBits(y) == 53584
  {
    assert ParseInt32("1kag") == Some(53584);
    assert Entry(y) == "1kag";
  }

  lemma Read2099(y: int)
    requires y == 2099
    ensures Data(y) == EntryBits(y) == 62034
  {
    assert ParseInt32("1sii") == Some(62034);
    assert Entry(y) == "1sii";
  }

  lemma Decade2090(y: int)
    requires 2090 <= y <= 2099
    ensures TableEntry(y)
  {
    if y == 2090 {
      Read2090(y);
    } else if y == 2091 {
      Read2091(y);
    } else if y == 2092 {
      Read2092(y);
    } else if y == 2093 {
      Read2093(y);
    } else if y == 2094 {
      Read2094(y);
    } else if y == 2095 {
      Read2095(y);
    } else if y == 2096 {
      Read2096(y);
    } else if y == 2097 {
      Read2097(y);
    } else if y == 2098 {
      Read2098(y);
    } else {
      Read2099(y);
    }
  }

  lemma Read2100(y: int)
    requires y == 2100
    ensures Data(y) == EntryBits(y) == 54560
  {
    assert ParseInt32("1l90") == Some(54560);
    assert Entry(y) == "1l90";
  }

  /** Every year of the table reads its entry's value, of 17 bits, with a leap index of at most 12. */
  lemma TableEntries(y: int)
    requires InRange(y)
    ensures TableEntry(y)
  {
    if y <= 1909 {
      Decade1900(y);
    } else if y <= 1919 {
      Decade1910(y);
    } else if y <= 1929 {
      Decade1920(y);
    } else if y <= 1939 {
      Decade1930(y);
    } else if y <= 1949 {
      Decade1940(y);
    } else if y <= 1959 {
      Decade1950(y);
    } else if y <= 1969 {
      Decade1960(y);
    } else if y <= 1979 {
      Decade1970(y);
    } else if y <= 1989 {
      Decade1980(y);
    } else if y <= 1999 {
      Decade1990(y);
    } else if y <= 2009 {
      Decade2000(y);
    } else if y <= 2019 {
      Decade2010(y);
    } else if y <= 2029 {
      Decade2020(y);
    } else if y <= 2039 {
      Decade2030(y);
    } else if y <= 2049 {
      Decade2040(y);
    } else if y <= 2059 {
      Decade2050(y);
    } else if y <= 2069 {
      Decade2060(y);
    } else if y <= 2079 {
      Decade2070(y);
    } else if y <= 2089 {
      Decade2080(y);
    } else if y <= 2099 {
      Decade2090(y);
    } else {
      Read2100(y);
    }
  }

  /** Every year of the table has a leap index naming one of its months, or none. */
  lemma TableWellFormed(y: int)
    requires InRange(y)
    ensures WellFormed(y) && Data(y) < 0x2_0000
  {
    TableEntries(y);
  }

  /**
   * Outside 1900 .. 2100 the entry is `undefined`: its value has leap index 13
   * and a leap month of 30 days.
   */
  lemma BeyondTable(y: int)
    requires !InRange(y)
    ensures Data(y) == EntryBits(y) == UndefinedBits
    ensures LeapMonth(y) == 13 && LeapLength(y) == 30
  {
    ParseUndefined();
    UndefinedLeap();
  }

  /** Bit 16 of the value of "undefined" is set: its leap month has 30 days. */
  lemma UndefinedLeap()
    ensures BitSet(UndefinedBits, 16)
  {
    assert Pow2(16) == 65536;
    DivModUnique(UndefinedBits, 65536, 0x5CF9, 0x5DCD);
  }

  /** `getLeapMonth`: `data & 0xf`, the regular month the leap month follows (0 for none). */
  function LeapMonth(y: int): (l: nat)
    ensures l <= 15
  {
    Data(y) % 16
  }

  /**
   * A year whose leap index names one of the twelve months. Every year of the
   * table is of this kind (its leap indices are 0 and 2..11); the lemmas that
   * need it say so.
   */
  predicate WellFormed(y: int)
  {
    LeapMonth(y) <= 12
  }

  /** `data & 1 << (16 - m) ? 30 : 29`: the length of regular month `m`. */
  function RegularLength(y: int, m: int): (n: int)
    ensures n == 29 || n == 30
    ensures 1 <= m <= 12 ==> (n == 30 <==> BitSet(Data(y), 16 - m))
  {
    if BitSet(Data(y), ShiftCount(16 - m)) then 30 else 29
  }

  /** `data & 1 << 16 ? 30 : 29`: the length of the leap month, when there is one. */
  function LeapLength(y: int): (n: int)
    ensures n == 29 || n == 30
    ensures n == 30 <==> BitSet(Data(y), 16)
  {
    if BitSet(Data(y), 16) then 30 else 29
  }

  /**
   * `getLunarMonthDays(y, m, isLeap)`: bit 16 when the leap month is asked for
   * and `m` is the year's leap month, bit 16 - m otherwise. Asking for a leap
   * month the year does not have gives the regular month's length.
   */
  function MonthDays(y: int, m: int, isLeap: bool): (n: int)
    ensures n == 29 || n == 30
    ensures isLeap && m == LeapMonth(y) ==> n == LeapLength(y)
    ensures !(isLeap && m == LeapMonth(y)) ==> n == RegularLength(y, m)
  {
    var days := RegularLength(y, m);
    if isLeap && m == LeapMonth(y) then LeapLength(y) else days
  }

  /** The days of regular months 1 .. m - 1, without any leap month. */
  function RegularBefore(y: int, m: int): (n: int)
    ensures m <= 1 ==> n == 0
    ensures m >= 1 ==> 29 * (m - 1) <= n <= 30 * (m - 1)
    decreases m
  {
    if m <= 1 then 0 else RegularBefore(y, m - 1) + RegularLength(y, m - 1)
  }

  /**
   * The length of lunar year `y`: twelve months of 29 days, a day more for each
   * month bit (bits 4 .. 15) that is set, and the leap month when
   * `getLeapMonth` is non-zero.
   */
  function YearDays(y: int): (n: int)
    ensures 348 <= n <= 390
    ensures LeapMonth(y) == 0 ==> n <= 360
    ensures LeapMonth(y) != 0 ==> n >= 377
  {
    OnesLow(Data(y) / 16, 3);
    12 * 29 + Ones(Data(y) / 16 % 4096) + (if LeapMonth(y) != 0 then LeapLength(y) else 0)
  }

  /** The regular months before month `m` have 29 days each and one more per set bit 17 - m .. 15. */
  lemma {:induction false} RegularBeforeBits(y: int, m: int)
    requires 1 <= m <= 13
    ensures RegularBefore(y, m) == 29 * (m - 1) + BitCount(Data(y), 17 - m, 16)
  {
    if m > 1 {
      RegularBeforeBits(y, m - 1);
      assert ShiftCount(16 - (m - 1)) == 17 - m;
    }
  }

  /**
   * A year is its twelve regular months (the months before month `m` = 13) and,
   * when it has one, its leap month. `m` is a parameter rather than the
   * literal 13 so that the verifier does not unfold `RegularBefore` twelve times.
   */
  lemma YearDaysByMonths(y: int, m: int)
    requires m == 13
    ensures YearDays(y) == RegularBefore(y, m) + (if LeapMonth(y) != 0 then LeapLength(y) else 0)
  {
    RegularBeforeBits(y, m);
    MonthBits(Data(y));
  }

  /** Bits 4 .. 15 of `x`, the month bits, counted a nibble at a time. */
  lemma MonthBits(x: nat)
    ensures Ones(x / 16 % 4096) == BitCount(x, 4, 16)
  {
    BitCountShift(x, 4, 0, 12);
    assert Pow2(4) == 16 && Pow2(12) == 4096;
    OnesLow(Shr(x, 4), 3);
  }

  /**
   * `getLunarYearDays`: the loop tests the mask `i` = 2^15, 2^14, .., 2^4 (the bits
   * of months 1..12), then adds the leap month when there is one.
   */
  method LunarYearDays(y: int) returns (offset: int)
    ensures offset == YearDays(y)
  {
    offset := 0;
    var data := Data(y);
    var i: nat := 32768;
    ghost var k: nat := 15;
    Pow2Threshold(15);
    while i >= 16
      invariant 3 <= k <= 15 && i == Pow2(k)
      invariant i >= 16 <==> k >= 4
      invariant offset == RegularBefore(y, 16 - k)
      decreases i
    {
      MaskTest(y, k, i);
      offset := offset + if (data / i) % 2 == 1 then 30 else 29;
      i := i / 2;
      k := k - 1;
      Pow2Threshold(k);
    }
    YearDaysByMonths(y, 16 - k);
    if LeapMonth(y) != 0 {
      offset := offset + if (data / 65536) % 2 == 1 then 30 else 29;
    }
  }

  /** Testing mask `i` = 2^k reads the length of regular month 16 - k; halving it moves to 2^(k-1). */
  lemma MaskTest(y: int, k: nat, i: nat)
    requires 4 <= k <= 15 && i == Pow2(k)
    ensures RegularLength(y, 16 - k) == (if (Data(y) / i) % 2 == 1 then 30 else 29)
    ensures i / 2 == Pow2(k - 1)
  {
    assert ShiftCount(16 - (16 - k)) == k;
    Pow2Succ(k);
  }
}
