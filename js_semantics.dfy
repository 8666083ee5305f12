/**
 * The few pieces of JavaScript number and string semantics that the calendar
 * code relies on: `parseInt(s, 32)`, bit tests `data & 1 << k`, the truncated
 * remainder `%`, `'' + n`, `padStart(2, '0')` and the `>=` comparison of strings.
 */
module JsSemantics {

  datatype Option<T> = None | Some(value: T)

  // ---------------------------------------------------------------------------
  // Powers of two and bits
  // ---------------------------------------------------------------------------

  /** 2^k, four bits at a time so that the powers up to 2^31 unfold in few steps. */
  function Pow2(k: nat): (p: nat)
    ensures p >= 1
  {
    if k == 0 then 1 else if k < 4 then 2 * Pow2(k - 1) else 16 * Pow2(k - 4)
  }

  /** 2^k is twice 2^(k - 1). */
  lemma {:induction false} Pow2Succ(k: nat)
    requires k >= 1
    ensures Pow2(k) == 2 * Pow2(k - 1)
  {
    if k > 4 {
      Pow2Succ(k - 4);
    }
  }

  /** 2^k reaches the mask `1 << 4` exactly from k = 4 on. */
  lemma {:induction false} Pow2Threshold(k: nat)
    ensures Pow2(k) >= 16 <==> k >= 4
  {
    if k >= 4 {
      assert Pow2(k) == 16 * Pow2(k - 4);
    }
  }

  lemma {:induction false} Pow2Add(a: nat, b: nat)
    ensures Pow2(a + b) == Pow2(a) * Pow2(b)
  {
    if a > 0 {
      var p, q := Pow2(a - 1), Pow2(b);
      Pow2Add(a - 1, b);
      Pow2Succ(a + b);
      Pow2Succ(a);
      assert a + b - 1 == a - 1 + b;
      Twice(p, q);
    }
  }

  lemma Twice(p: int, q: int)
    ensures (2 * p) * q == 2 * (p * q)
  {
    assert (2 * p) * q == (p + p) * q == p * q + p * q;
  }

  /** The shift count JavaScript uses in `x << n`: the low five bits of `n`. */
  function ShiftCount(n: int): (s: nat)
    ensures s < 32
    ensures 0 <= n < 32 ==> s == n
  {
    n % 32
  }

  /**
   * Whether bit `k` of `x` is set: `x & (1 << k)` for a non-negative `x` below
   * 2^32 (the 32 bits JavaScript's `&` works on) and a shift count `k < 32`.
   */
  predicate BitSet(x: nat, k: nat)
  {
    (x / Pow2(k)) % 2 == 1
  }

  /** The number of set bits of a nibble `n`, counted a bit at a time. */
  function NibbleOnes(n: nat): nat
    decreases n
  {
    if n == 0 then 0 else n % 2 + NibbleOnes(n / 2)
  }

  /** The number of set bits of `x`, a nibble at a time. */
  function Ones(x: nat): (n: nat)
    decreases x
  {
    if x == 0 then 0 else NibbleOnes(x % 16) + Ones(x / 16)
  }

  /** The number of set bits of `x` among bits `lo` .. `hi - 1`. */
  function BitCount(x: nat, lo: nat, hi: nat): (n: nat)
    ensures n <= if lo <= hi then hi - lo else 0
    decreases hi - lo
  {
    if lo >= hi then 0 else (if BitSet(x, lo) then 1 else 0) + BitCount(x, lo + 1, hi)
  }

  lemma MulAtLeast(k: int, d: int)
    requires k >= 1 && d > 0
    ensures k * d >= d
  {
    assert k * d == (k - 1) * d + d;
    assert (k - 1) * d >= 0;
  }

  /** Division has one quotient and one remainder. */
  lemma DivModUnique(x: int, d: int, q: int, r: int)
    requires d > 0 && 0 <= r < d && x == q * d + r
    ensures x / d == q && x % d == r
  {
    var q0, r0 := x / d, x % d;
    assert x == q0 * d + r0;
    if q0 > q {
      assert (q0 - q) * d == q0 * d - q * d;
      MulAtLeast(q0 - q, d);
    } else if q0 < q {
      assert (q - q0) * d == q * d - q0 * d;
      MulAtLeast(q - q0, d);
    }
  }

  lemma DivNonneg(x: int, d: int)
    requires x >= 0 && d > 0
    ensures x / d >= 0
  {
  }

  /** `x / 2^s`: the bits of `x` from bit `s` on. */
  function Shr(x: nat, s: nat): nat
  {
    DivNonneg(x, Pow2(s));
    x / Pow2(s)
  }

  /** Dividing by `p`, then by `q`, is dividing by `p * q`. */
  lemma DivDiv(x: nat, p: nat, q: nat)
    requires p > 0 && q > 0
    ensures x / p / q == x / (p * q)
  {
    var a, r1 := x / p, x % p;
    var b, r2 := a / q, a % q;
    assert x == b * (p * q) + (r2 * p + r1) by {
      assert x == a * p + r1;
      assert a == b * q + r2;
    }
    assert r2 * p + r1 < p * q by {
      assert r2 * p <= (q - 1) * p;
    }
    DivModUnique(x, p * q, b, r2 * p + r1);
  }

  /** Bit `k` of `x / 2^s` is bit `s + k` of `x`. */
  lemma BitShift(x: nat, s: nat, k: nat)
    ensures BitSet(Shr(x, s), k) == BitSet(x, s + k)
  {
    DivDiv(x, Pow2(s), Pow2(k));
    Pow2Add(s, k);
  }

  lemma {:induction false} BitCountShift(x: nat, s: nat, lo: nat, hi: nat)
    ensures BitCount(Shr(x, s), lo, hi) == BitCount(x, lo + s, hi + s)
    decreases hi - lo
  {
    if lo < hi {
      BitShift(x, s, lo);
      BitCountShift(x, s, lo + 1, hi);
    }
  }

  /** Counting bits lo .. hi - 1 of `x` is counting lo .. mid - 1, then mid .. hi - 1. */
  lemma {:induction false} BitCountSplit(x: nat, lo: nat, mid: nat, hi: nat)
    requires lo <= mid <= hi
    ensures BitCount(x, lo, hi) == BitCount(x, lo, mid) + BitCount(x, mid, hi)
    decreases mid - lo
  {
    if lo < mid {
      BitCountSplit(x, lo + 1, mid, hi);
    }
  }

  /** The set bits of the low nibble of `x` are its bits 0 .. 3. */
  lemma NibbleBits(x: nat)
    ensures NibbleOnes(x % 16) == BitCount(x, 0, 4)
  {
    var r := x % 16;
    NibbleSum(r);
    LowBits(x);
    assert BitCount(x, 3, 4) == r / 8 % 2;
    assert BitCount(x, 2, 4) == r / 4 % 2 + r / 8 % 2;
    assert BitCount(x, 1, 4) == r / 2 % 2 + r / 4 % 2 + r / 8 % 2;
  }

  /** Bits 0 .. 3 of `x` are those of its low nibble. */
  lemma LowBits(x: nat)
    ensures BitSet(x, 0) <==> x % 16 % 2 == 1
    ensures BitSet(x, 1) <==> x % 16 / 2 % 2 == 1
    ensures BitSet(x, 2) <==> x % 16 / 4 % 2 == 1
    ensures BitSet(x, 3) <==> x % 16 / 8 % 2 == 1
  {
    var q, r := x / 16, x % 16;
    assert Pow2(0) == 1 && Pow2(1) == 2 && Pow2(2) == 4 && Pow2(3) == 8;
    DivModUnique(x, 2, 8 * q + r / 2, r % 2);
    DivModUnique(x, 4, 4 * q + r / 4, r % 4);
    DivModUnique(x, 8, 2 * q + r / 8, r % 8);
    NibbleHalves(r);
    DivModUnique(x / 2, 2, 4 * q + r / 4, r / 2 % 2);
    DivModUnique(x / 4, 2, 2 * q + r / 8, r / 4 % 2);
    DivModUnique(x / 8, 2, q, r / 8 % 2);
  }

  /** The bits of a nibble, counted one by one. */
  lemma NibbleSum(r: nat)
    requires r < 16
    ensures NibbleOnes(r) == r % 2 + r / 2 % 2 + r / 4 % 2 + r / 8 % 2
  {
    NibbleHalves(r);
    assert r / 2 / 2 == r / 4 && r / 4 / 2 == r / 8 && r / 8 / 2 == 0;
    assert NibbleOnes(r / 8) == r / 8 % 2 + NibbleOnes(r / 8 / 2);
    assert NibbleOnes(r / 4) == r / 4 % 2 + NibbleOnes(r / 4 / 2);
    assert NibbleOnes(r / 2) == r / 2 % 2 + NibbleOnes(r / 2 / 2);
  }

  lemma NibbleHalves(r: nat)
    requires r < 16
    ensures r / 2 == 2 * (r / 4) + r / 2 % 2 && r / 4 == 2 * (r / 8) + r / 4 % 2 && r / 8 < 2
  {
    assert r == 0 || r == 1 || r == 2 || r == 3 || r == 4 || r == 5 || r == 6 || r == 7
      || r == 8 || r == 9 || r == 10 || r == 11 || r == 12 || r == 13 || r == 14 || r == 15;
  }

  /** The low 4n bits of `x`, `x % 2^(4n)`, are its set bits 0 .. 4n - 1. */
  lemma {:induction false} OnesLow(x: nat, n: nat)
    ensures Ones(x % Pow2(4 * n)) == BitCount(x, 0, 4 * n)
  {
    if n > 0 {
      var p := Pow2(4 * (n - 1));
      assert Pow2(4 * n) == 16 * p;
      var z := x % (16 * p);
      SplitNibble(x, p);
      assert Ones(z) == NibbleOnes(z % 16) + Ones(z / 16);
      NibbleBits(x);
      OnesLow(x / 16, n - 1);
      BitCountShift(x, 4, 0, 4 * (n - 1));
      assert Shr(x, 4) == x / 16;
      BitCountSplit(x, 0, 4, 4 * n);
    }
  }

  /** The remainder of `x` by 16p is its low nibble followed by `x / 16 % p`. */
  lemma SplitNibble(x: nat, p: nat)
    requires p >= 1
    ensures x % (16 * p) % 16 == x % 16 && x % (16 * p) / 16 == x / 16 % p
  {
    var z := x % (16 * p);
    var q := x / (16 * p);
    assert x == q * (16 * p) + z;
    DivModUnique(x, 16, q * p + z / 16, z % 16);
    DivModUnique(x / 16, p, q, z / 16);
  }

  /** JavaScript's `a % b` for `b > 0`: the remainder takes the sign of `a`. */
  function TruncRem(a: int, b: int): (r: int)
    requires b > 0
    ensures -b < r < b
    ensures a >= 0 ==> r == a % b
    ensures a < 0 ==> r <= 0
  {
    if a >= 0 then a % b else -((-a) % b)
  }

  /**
   * The truncated remainder is the Euclidean one, or that one less `b` when it
   * is negative.
   */
  lemma TruncRemEuclid(a: int, b: int)
    requires b > 0
    ensures TruncRem(a, b) >= 0 ==> TruncRem(a, b) == a % b
    ensures TruncRem(a, b) < 0 ==> TruncRem(a, b) + b == a % b
  {
    if a < 0 {
      var q, m := (-a) / b, (-a) % b;
      if m > 0 {
        DivModUnique(a, b, -q - 1, b - m);
      } else {
        DivModUnique(a, b, -q, 0);
      }
    }
  }

  // ---------------------------------------------------------------------------
  // parseInt(s, 32)
  // ---------------------------------------------------------------------------

  /** The value of a radix-32 digit (case-insensitive), or -1 for any other character. */
  function DigitValue(c: char): (v: int)
    ensures -1 <= v < 32
  {
    if '0' <= c <= '9' then c as int - '0' as int
    else if 'a' <= c <= 'v' then c as int - 'a' as int + 10
    else if 'A' <= c <= 'V' then c as int - 'A' as int + 10
    else -1
  }

  predicate AllDigits(s: string)
  {
    forall i :: 0 <= i < |s| ==> DigitValue(s[i]) >= 0
  }

  /**
   * The digits of `s` from index `i` on, up to the first character that is not
   * one, appended in radix 32 to the value `acc` of the digits before them.
   */
  function DigitRun(s: string, i: nat, acc: nat): (v: nat)
    ensures v >= acc
    decreases |s| - i
  {
    if i >= |s| || DigitValue(s[i]) < 0 then acc
    else DigitRun(s, i + 1, acc * 32 + DigitValue(s[i]))
  }

  /**
   * `parseInt(s, 32)`: the value of the longest leading run of digits, or `None`
   * (JavaScript's NaN) when `s` does not start with a digit. Leading white space
   * and a sign, which parseInt also accepts, never occur in the strings parsed.
   */
  function ParseInt32(s: string): (r: Option<nat>)
    ensures r.None? <==> (s == [] || DigitValue(s[0]) < 0)
  {
    if s == [] || DigitValue(s[0]) < 0 then None
    else Some(DigitRun(s, 0, 0))
  }

  /** The number a string of radix-32 digits denotes, most significant digit first. */
  function DigitsValue(s: string): (v: nat)
    requires AllDigits(s)
  {
    if s == [] then 0
    else DigitsValue(s[..|s| - 1]) * 32 + DigitValue(s[|s| - 1])
  }

  /** Along a string of digits, the run started after the first `i` of them reads the whole string. */
  lemma {:induction false} DigitRunAll(s: string, i: nat)
    requires AllDigits(s) && i <= |s|
    ensures AllDigits(s[..i])
    ensures DigitRun(s, i, DigitsValue(s[..i])) == DigitsValue(s)
    decreases |s| - i
  {
    assert AllDigits(s[..i]) by {
      forall k | 0 <= k < i ensures DigitValue(s[..i][k]) >= 0 {
        assert s[..i][k] == s[k];
      }
    }
    if i == |s| {
      assert s[..i] == s;
    } else {
      DigitRunAll(s, i + 1);
      assert s[..i + 1][..i] == s[..i];
      assert DigitsValue(s[..i + 1]) == DigitsValue(s[..i]) * 32 + DigitValue(s[i]);
    }
  }

  /** `parseInt(s, 32)` of a non-empty string of radix-32 digits is the number they denote. */
  lemma ParseDigits(s: string)
    requires AllDigits(s) && s != []
    ensures ParseInt32(s) == Some(DigitsValue(s))
  {
    DigitRunAll(s, 0);
    assert s[..0] == [];
  }

  /** 2^32, the modulus of JavaScript's conversion of a number to a 32-bit integer. */
  const TwoTo32: nat := 0x1_0000_0000

  /**
   * The operand a parseInt result becomes under `&` (ToInt32, read as its 32
   * bits): NaN turns into 0, a number keeps its low 32 bits.
   */
  function BitOperand(r: Option<nat>): (x: nat)
    ensures x < TwoTo32
    ensures r.None? ==> x == 0
    ensures r.Some? && r.value < TwoTo32 ==> x == r.value
  {
    match r
    case None => 0
    case Some(v) => v % TwoTo32
  }

  // ---------------------------------------------------------------------------
  // '' + n and padStart(2, '0')
  // ---------------------------------------------------------------------------

  function DigitChar(d: int): (c: char)
    requires 0 <= d < 10
    ensures '0' <= c <= '9'
  {
    ('0' as int + d) as char
  }

  /** The decimal text of a natural number, without leading zeros. */
  function NatToString(n: nat): (s: string)
    ensures |s| >= 1
    ensures forall i :: 0 <= i < |s| ==> '0' <= s[i] <= '9'
    ensures n < 10 <==> |s| == 1
  {
    if n < 10 then [DigitChar(n)]
    else NatToString(n / 10) + [DigitChar(n % 10)]
  }

  /** `'' + n` for an integer `n`. */
  function IntToString(n: int): (s: string)
    ensures |s| >= 1
    ensures n >= 0 ==> s == NatToString(n)
    ensures n < 0 ==> s[0] == '-'
  {
    if n >= 0 then NatToString(n) else "-" + NatToString(-n)
  }

  /** `s.padStart(2, '0')`. */
  function PadStart2(s: string): (r: string)
    ensures |s| >= 2 ==> r == s
    ensures |s| < 2 ==> |r| == 2 && r[2 - |s|..] == s
  {
    if |s| == 0 then "00" else if |s| == 1 then "0" + s else s
  }

  // ---------------------------------------------------------------------------
  // String comparison
  // ---------------------------------------------------------------------------

  /** `a < b` on strings: lexicographic by code point, a proper prefix is smaller. */
  predicate StrLess(a: string, b: string)
  {
    if a == [] then b != []
    else if b == [] then false
    else if a[0] != b[0] then a[0] < b[0]
    else StrLess(a[1..], b[1..])
  }

  /** `a >= b` on strings. */
  predicate StrGe(a: string, b: string)
  {
    !StrLess(a, b)
  }

  /** Strings that start with different characters compare as those characters; otherwise by the rest. */
  lemma StrLessCons(c: char, x: string, d: char, y: string)
    ensures StrLess([c] + x, [d] + y) == if c != d then c < d else StrLess(x, y)
  {
    assert ([c] + x)[1..] == x;
    assert ([d] + y)[1..] == y;
  }

  /** Decimal digits compare as the characters that write them. */
  lemma DigitCharOrder(a: int, b: int)
    requires 0 <= a < 10 && 0 <= b < 10
    ensures DigitChar(a) < DigitChar(b) <==> a < b
    ensures DigitChar(a) == DigitChar(b) <==> a == b
  {
  }

  /** `('' + n).padStart(2, '0')` for `0 <= n < 100`: two decimal digits. */
  lemma TwoDigitText(n: int)
    requires 0 <= n < 100
    ensures PadStart2(IntToString(n)) == [DigitChar(n / 10), DigitChar(n % 10)]
  {
    if n >= 10 {
      assert NatToString(n / 10) == [DigitChar(n / 10)];
    }
  }
}
