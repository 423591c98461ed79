/**
 * Decimal digit strings and Kotlin's 32-bit `Int`: the digits-only test of the
 * amount field, `String.toInt()` (here `ToIntOrNull`, whose `None` is the
 * `NumberFormatException`) and the wrap-around of `Int` addition.
 * Only the ASCII digits '0'..'9' are modelled.
 */
module Decimal {
  import opened Wrappers

  const MinInt: int := -0x8000_0000
  const MaxInt: int := 0x7fff_ffff
  const IntRange: int := 0x1_0000_0000

  predicate IsDigit(c: char) {
    '0' <= c <= '9'
  }

  /** `s.all { it.isDigit() }`: true of the empty string. */
  predicate AllDigits(s: string)
    ensures AllDigits(s) <==> forall c :: c in s ==> IsDigit(c)
  {
    forall i :: 0 <= i < |s| ==> IsDigit(s[i])
  }

  function DigitValue(c: char): (n: nat)
    requires IsDigit(c)
    ensures n < 10
  {
    c as int - '0' as int
  }

  function DigitChar(n: nat): (c: char)
    requires n < 10
    ensures IsDigit(c) && DigitValue(c) == n
  {
    ('0' as int + n) as char
  }

  function Pow10(n: nat): (p: nat)
    ensures p >= 1
  {
    if n == 0 then 1 else 10 * Pow10(n - 1)
  }

  /** The value of a digit string read left to right; the empty string reads as 0. */
  function ValueOf(s: string): (v: nat)
    requires AllDigits(s)
    ensures v < Pow10(|s|)
  {
    if s == [] then 0
    else
      var v := ValueOf(s[..|s| - 1]);
      var d := DigitValue(s[|s| - 1]);
      assert v * 10 + d < Pow10(|s| - 1) * 10 by {
        assert v + 1 <= Pow10(|s| - 1);
        assert (v + 1) * 10 <= Pow10(|s| - 1) * 10;
      }
      v * 10 + d
  }

  /** The shortest decimal rendering of `n` ("0" for zero). */
  function DigitsOf(n: nat): (s: string)
    ensures AllDigits(s) && |s| >= 1
    ensures n < 10 ==> |s| == 1
    ensures 10 <= n < 100 ==> |s| == 2
  {
    if n < 10 then [DigitChar(n)] else DigitsOf(n / 10) + [DigitChar(n % 10)]
  }

  /** Left-pads `s` with '0' to at least `width` characters, as a fixed-width date field. */
  function PadLeft(s: string, width: nat): (p: string)
    requires AllDigits(s)
    ensures AllDigits(p)
    ensures |p| == if |s| >= width then |s| else width
    decreases width - |s|
  {
    if |s| >= width then s else PadLeft(['0'] + s, width)
  }

  lemma {:induction false} ValueOfDigitsOf(n: nat)
    ensures ValueOf(DigitsOf(n)) == n
  {
    if n >= 10 {
      var s := DigitsOf(n / 10);
      ValueOfDigitsOf(n / 10);
      assert (s + [DigitChar(n % 10)])[..|s|] == s;
    }
  }

  lemma {:induction false} LeadingZero(s: string)
    requires AllDigits(s)
    ensures AllDigits(['0'] + s) && ValueOf(['0'] + s) == ValueOf(s)
  {
    var t := ['0'] + s;
    assert AllDigits(t);
    if s != [] {
      LeadingZero(s[..|s| - 1]);
      assert t[..|t| - 1] == ['0'] + s[..|s| - 1];
    }
  }

  lemma {:induction false} ValueOfPadLeft(s: string, width: nat)
    requires AllDigits(s)
    ensures ValueOf(PadLeft(s, width)) == ValueOf(s)
    decreases width - |s|
  {
    if |s| < width {
      LeadingZero(s);
      ValueOfPadLeft(['0'] + s, width);
    }
  }

  /** A value of Kotlin's 32-bit `Int`. */
  predicate IsInt(x: int) {
    MinInt <= x <= MaxInt
  }

  /**
   * Two's-complement wrap-around of an unbounded integer into `Int`: the one
   * value in `MinInt..MaxInt` that differs from `x` by a multiple of 2^32.
   */
  function Wrap32(x: int): (r: int)
    ensures IsInt(r)
    ensures IsInt(x) ==> r == x
  {
    (x - MinInt) % IntRange + MinInt
  }

  /** Wrapping changes a value by a multiple of 2^32 only. */
  lemma WrapDifference(x: int)
    ensures (x - Wrap32(x)) % IntRange == 0
  {
    var q := (x - MinInt) / IntRange;
    assert x - Wrap32(x) == q * IntRange;
  }

  /** Two integers that differ by a multiple of 2^32 wrap to the same `Int`. */
  lemma WrapCongruent(x: int, y: int)
    requires (x - y) % IntRange == 0
    ensures Wrap32(x) == Wrap32(y)
  {
    var k := (x - y) / IntRange;
    assert x == y + k * IntRange;
    var q := (y - MinInt) / IntRange;
    var r := (y - MinInt) % IntRange;
    assert x - MinInt == (q + k) * IntRange + r;
  }

  /** Kotlin's `Int` addition `a + b`: overflows wrap around. */
  function Add32(a: int, b: int): (r: int)
    requires IsInt(a) && IsInt(b)
    ensures IsInt(r)
    ensures IsInt(a + b) ==> r == a + b
  {
    if a + b > MaxInt then a + b - IntRange
    else if a + b < MinInt then a + b + IntRange
    else a + b
  }

  /** Kotlin's `Int` subtraction `a - b`: overflows wrap around. */
  function Sub32(a: int, b: int): (r: int)
    requires IsInt(a) && IsInt(b)
    ensures IsInt(r)
    ensures IsInt(a - b) ==> r == a - b
  {
    if a - b > MaxInt then a - b - IntRange
    else if a - b < MinInt then a - b + IntRange
    else a - b
  }

  /** `Int` addition and subtraction are the exact results wrapped into `Int`. */
  lemma Add32Sub32Wrap(a: int, b: int)
    requires IsInt(a) && IsInt(b)
    ensures Add32(a, b) == Wrap32(a + b)
    ensures Sub32(a, b) == Wrap32(a - b)
  {
    WrapDifference(a + b);
    WrapCongruent(a + b, Add32(a, b));
    WrapDifference(a - b);
    WrapCongruent(a - b, Sub32(a, b));
  }

  /** Adding an `Int` to a wrapped running total is wrapping the exact total. */
  lemma WrapAccumulate(total: int, v: int)
    requires IsInt(v)
    ensures Add32(Wrap32(total), v) == Wrap32(total + v)
  {
    Add32Sub32Wrap(Wrap32(total), v);
    WrapDifference(total);
    WrapCongruent(Wrap32(total) + v, total + v);
  }

  /**
   * Kotlin's `String.toIntOrNull()` in radix 10: an optional leading '-' or '+'
   * followed by at least one digit, with a value that fits in `Int`.
   * `toInt()` throws exactly where this is `None`.
   */
  function ToIntOrNull(s: string): (r: Option<int>)
    ensures r.Some? ==> s != [] && MinInt <= r.value <= MaxInt
    ensures r.Some? ==> AllDigits(s) || (|s| >= 2 && (s[0] == '-' || s[0] == '+') && AllDigits(s[1..]))
    ensures r.Some? && AllDigits(s) ==> r.value == ValueOf(s)
    ensures r.Some? && |s| >= 2 && s[0] == '+' && AllDigits(s[1..]) ==> r.value == ValueOf(s[1..])
    ensures r.Some? && |s| >= 2 && s[0] == '-' && AllDigits(s[1..]) ==> r.value == 0 - ValueOf(s[1..])
  {
    if s == [] then None
    else if s[0] == '-' || s[0] == '+' then
      var digits := s[1..];
      if digits != [] && AllDigits(digits) then
        var v: int := if s[0] == '-' then 0 - ValueOf(digits) as int else ValueOf(digits);
        if MinInt <= v <= MaxInt then Some(v) else None
      else None
    else if AllDigits(s) && ValueOf(s) <= MaxInt then Some(ValueOf(s))
    else None
  }

  /**
   * A string with a character that is neither a digit nor a leading sign
   * before at least one more character ("12a", " 5", "1.5", "-", "") throws.
   */
  lemma NonNumericThrows(s: string, i: int)
    requires 0 <= i < |s| && !IsDigit(s[i])
    requires !(i == 0 && |s| >= 2 && (s[0] == '-' || s[0] == '+'))
    ensures ToIntOrNull(s) == None
  {
    assert !AllDigits(s);
    if |s| >= 2 && (s[0] == '-' || s[0] == '+') {
      assert s[1..][i - 1] == s[i];
      assert !AllDigits(s[1..]);
    }
  }

  /** A non-empty digit string, as the amount field holds, parses to its value exactly when that fits in `Int`. */
  lemma DigitStringParses(s: string)
    requires s != [] && AllDigits(s)
    ensures ToIntOrNull(s) == if ValueOf(s) <= MaxInt then Some(ValueOf(s)) else None
  {
    assert IsDigit(s[0]);
  }

  /** A sign followed by digits parses to the signed value exactly when that fits in `Int` ("-5" is -5, "+5" is 5). */
  lemma SignedDigitStringParses(s: string)
    requires |s| >= 2 && (s[0] == '-' || s[0] == '+') && AllDigits(s[1..])
    ensures var v: int := if s[0] == '-' then 0 - ValueOf(s[1..]) else ValueOf(s[1..]);
            ToIntOrNull(s) == if IsInt(v) then Some(v) else None
  {
  }

  /** A number below `10^k` has at most `k` digits. */
  lemma {:induction false} DigitsOfShort(n: nat, k: nat)
    requires 1 <= k && n < Pow10(k)
    ensures |DigitsOf(n)| <= k
  {
    if n >= 10 {
      DigitsOfShort(n / 10, k - 1);
    }
  }

  /** Every amount of one to nine digits parses; ten digits may not. */
  lemma ShortDigitStringParses(s: string)
    requires 1 <= |s| <= 9 && AllDigits(s)
    ensures ToIntOrNull(s) == Some(ValueOf(s))
  {
    Pow10Monotone(|s|, 9);
    assert Pow10(9) == 1_000_000_000;
    DigitStringParses(s);
  }

  lemma {:induction false} Pow10Monotone(i: nat, j: nat)
    requires i <= j
    ensures Pow10(i) <= Pow10(j)
    decreases j
  {
    if i < j {
      Pow10Monotone(i, j - 1);
    }
  }

  /** `toInt()` inverts Kotlin's `Int.toString()` on non-negative values. */
  lemma ToIntOrNullDigitsOf(n: nat)
    requires n <= MaxInt
    ensures ToIntOrNull(DigitsOf(n)) == Some(n)
  {
    ValueOfDigitsOf(n);
    DigitStringParses(DigitsOf(n));
  }

  /** The ten-digit string "3000000000" reads as three billion, beyond `MaxInt`. */
  lemma ThreeBillion()
    ensures AllDigits("3000000000") && ValueOf("3000000000") == 3000000000
  {
    ThreeThenZeros(9);
    assert Pow10(9) == 1000000000;
    assert Zeros(9) == "000000000";
    assert "3" + Zeros(9) == "3000000000";
  }

  function Zeros(n: nat): (z: string)
    ensures |z| == n
  {
    if n == 0 then "" else Zeros(n - 1) + "0"
  }

  lemma {:induction false} ThreeThenZeros(k: nat)
    ensures AllDigits("3" + Zeros(k)) && ValueOf("3" + Zeros(k)) == 3 * Pow10(k)
  {
    var s := "3" + Zeros(k);
    if k == 0 {
      assert s[..0] == [];
    } else {
      ThreeThenZeros(k - 1);
      var p := "3" + Zeros(k - 1);
      assert s == p + "0";
      assert s[..|s| - 1] == p;
    }
  }
}
