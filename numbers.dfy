/**
 * Integer arithmetic shared by the problem generator, the scorers and the
 * formatters: powers of ten and digit ranges, the sampling of `Math.random()`,
 * floor division, round-half-up division, sums and products, and decimal text.
 */
module Numbers {

  // ---------------------------------------------------------------------------
  // Digit ranges

  /** 10^d, which `Math.pow(10, d)` gives exactly for the digit counts in use. */
  function Pow10(d: nat): (r: nat)
    ensures r >= 1
    ensures d >= 1 ==> r >= 10
  {
    if d == 0 then 1 else 10 * Pow10(d - 1)
  }

  /** The largest operand for a digit count: 10^digits - 1, the number written with `digits` nines. */
  function MaxForDigits(digits: nat): (r: int)
    ensures r >= 0
    ensures digits >= 1 ==> r >= 9 && r % 10 == 9
  {
    Pow10(digits) - 1
  }

  /** The smallest operand for a digit count: 0 for one digit, else 10^(digits-1), one past the largest with a digit fewer. */
  function MinForDigits(digits: nat): (r: int)
    requires digits >= 1
    ensures 0 <= r <= MaxForDigits(digits)
    ensures digits >= 2 ==> r == MaxForDigits(digits - 1) + 1
  {
    if digits == 1 then 0 else Pow10(digits - 1)
  }

  /** The range is never empty and never negative. */
  lemma DigitRangeOrdered(digits: nat)
    requires digits >= 1
    ensures 0 <= MinForDigits(digits) <= MaxForDigits(digits)
  {
  }

  /**
   * Apart from the one-digit case, which also admits 0, the range holds exactly
   * the numbers whose decimal text has `digits` digits.
   */
  lemma {:induction false} DigitRangeIsDigitCount(n: nat, digits: nat)
    requires digits >= 1
    ensures MinForDigits(digits) <= n <= MaxForDigits(digits) <==> |ShowNat(n)| == digits
    decreases n
  {
    if n >= 10 {
      assert |ShowNat(n)| == |ShowNat(n / 10)| + 1;
      if digits == 1 {
      } else {
        DigitRangeIsDigitCount(n / 10, digits - 1);
        if digits == 2 {
        } else {
          var p := Pow10(digits - 2);
          assert Pow10(digits - 1) == 10 * p;
          assert p <= n / 10 <==> 10 * p <= n;
          assert n / 10 <= 10 * p - 1 <==> n <= 100 * p - 1;
        }
      }
    }
  }

  // ---------------------------------------------------------------------------
  // Sampling

  /**
   * `Math.floor(r * (hi - lo + 1)) + lo`, where `r` is one value of
   * `Math.random()`, so 0 <= r < 1: always within [lo, hi].
   */
  function RandomInRange(r: real, lo: int, hi: int): (n: int)
    requires 0.0 <= r < 1.0 && lo <= hi
    ensures lo <= n <= hi
  {
    (r * ((hi - lo + 1) as real)).Floor + lo
  }

  /** Every value of [lo, hi] is drawn by some value of the random source. */
  lemma RandomInRangeOnto(lo: int, hi: int, n: int)
    requires lo <= n <= hi
    ensures exists r: real :: 0.0 <= r < 1.0 && RandomInRange(r, lo, hi) == n
  {
    var k := (hi - lo + 1) as real;
    var r := ((n - lo) as real) / k;
    assert r * k == (n - lo) as real;
    assert 0.0 <= r;
    assert r < 1.0 by {
      var d := k - (n - lo) as real;
      assert d > 0.0;
      assert (1.0 - r) * k == d;
    }
    assert RandomInRange(r, lo, hi) == n;
  }

  // ---------------------------------------------------------------------------
  // Division and rounding

  /** `Math.floor(a / b)` on integers: the quotient rounded toward minus infinity. */
  function FloorDiv(a: int, b: int): (q: int)
    requires b != 0
    ensures b > 0 ==> b * q <= a < b * q + b
    ensures b < 0 ==> b * q >= a > b * q + b
    ensures a >= 0 && b > 0 ==> 0 <= q <= a
  {
    if b > 0 then
      assert a >= 0 ==> a / b <= a by {
        if a >= 0 {
          assert a / b >= 0;
          MulMonotone(a / b, 1, b);
        }
      }
      a / b
    else (-a) / (-b)
  }

  /** Two quotients that both satisfy the floor inequalities for the same positive divisor are equal. */
  lemma FloorDivUnique(a: int, m: int, x: int, y: int)
    requires m > 0
    requires m * x <= a < m * x + m
    requires m * y <= a < m * y + m
    ensures x == y
  {
    if x < y {
      assert m * (x + 1) == m * x + m;
      MulMonotone(m, x + 1, y);
    } else if y < x {
      assert m * (y + 1) == m * y + m;
      MulMonotone(m, y + 1, x);
    }
  }

  /** Flooring twice by positive divisors is flooring once by their product. */
  lemma FloorDivNested(a: int, b: int, c: int)
    ensures b > 0 && c > 0 ==> FloorDiv(FloorDiv(a, b), c) == FloorDiv(a, b * c)
  {
    if b > 0 && c > 0 {
      var q := FloorDiv(a, b);
      var q2 := FloorDiv(q, c);
      MulMonotone(b, c * q2, q);
      MulMonotone(b, q, c * q2 + c - 1);
      assert b * (c * q2) == (b * c) * q2;
      assert b * (c * q2 + c - 1) == (b * c) * q2 + b * c - b;
      FloorDivUnique(a, b * c, q2, FloorDiv(a, b * c));
    }
  }

  /**
   * `Math.round(num / den)` computed exactly: the integer nearest to num/den,
   * halves rounded up.
   */
  function RoundDiv(num: int, den: int): (r: int)
    requires den > 0
    ensures 2 * den * r <= 2 * num + den < 2 * den * r + 2 * den
  {
    (2 * num + den) / (2 * den)
  }

  /** Multiplying by a non-negative factor keeps an inequality. */
  lemma MulMonotone(k: int, a: int, b: int)
    requires k >= 0
    ensures a <= b ==> k * a <= k * b
  {
    assert k * b - k * a == k * (b - a);
  }

  /** Rounding an average never leaves the bounds of the values averaged. */
  lemma RoundDivBetween(num: int, den: int, lo: int, hi: int)
    requires den > 0
    requires den * lo <= num <= den * hi
    ensures lo <= RoundDiv(num, den) <= hi
  {
    var r := RoundDiv(num, den);
    MulMonotone(2 * den, r + 1, lo);
    assert 2 * den * (r + 1) == 2 * den * r + 2 * den;
    assert 2 * den * lo == 2 * (den * lo);
    MulMonotone(2 * den, hi + 1, r);
    assert 2 * den * (hi + 1) == 2 * den * hi + 2 * den;
    assert 2 * den * hi == 2 * (den * hi);
  }

  /** A percentage: Math.round(part / whole * 100), and 0 when whole is 0. */
  function Percentage(part: int, whole: int): (p: int)
    requires whole >= 0
    ensures whole == 0 ==> p == 0
    ensures whole > 0 ==> 2 * whole * p <= 200 * part + whole < 2 * whole * p + 2 * whole
  {
    if whole > 0 then RoundDiv(100 * part, whole) else 0
  }

  /** A share of at most the whole is a percentage in [0, 100]; all of it is 100. */
  lemma PercentageBounds(part: int, whole: int)
    requires 0 <= part <= whole
    ensures 0 <= Percentage(part, whole) <= 100
    ensures 0 < whole == part ==> Percentage(part, whole) == 100
    ensures part == 0 ==> Percentage(part, whole) == 0
  {
    if whole > 0 {
      MulMonotone(100, part, whole);
      assert whole * 0 == 0;
      assert whole * 100 == 100 * whole;
      RoundDivBetween(100 * part, whole, 0, 100);
      if part == whole {
        RoundDivBetween(100 * part, whole, 100, 100);
      }
      if part == 0 {
        RoundDivBetween(0, whole, 0, 0);
      }
    }
  }

  // ---------------------------------------------------------------------------
  // Reductions

  /** `numbers.reduce((sum, num) => sum + num, 0)`. */
  function Sum(s: seq<int>): int
  {
    if s == [] then 0 else Sum(s[..|s| - 1]) + s[|s| - 1]
  }

  /** The product of the operands, starting from 1. */
  function Product(s: seq<int>): (r: int)
    ensures (forall k :: 0 <= k < |s| ==> s[k] > 0) ==> r > 0
  {
    if s == [] then 1 else Product(s[..|s| - 1]) * s[|s| - 1]
  }

  /** A sum of values in [lo, hi] lies in [|s|·lo, |s|·hi]. */
  lemma {:induction false} SumBetween(s: seq<int>, lo: int, hi: int)
    ensures (forall k :: 0 <= k < |s| ==> lo <= s[k] <= hi) ==> |s| * lo <= Sum(s) <= |s| * hi
    decreases |s|
  {
    if s != [] && forall k :: 0 <= k < |s| ==> lo <= s[k] <= hi {
      var init := s[..|s| - 1];
      assert forall k :: 0 <= k < |init| ==> init[k] == s[k];
      SumBetween(init, lo, hi);
      assert |s| * lo == |init| * lo + lo && |s| * hi == |init| * hi + hi;
    }
  }

  lemma {:induction false} SumAppend(a: seq<int>, b: seq<int>)
    ensures Sum(a + b) == Sum(a) + Sum(b)
    decreases |b|
  {
    if b == [] {
      assert a + b == a;
    } else {
      assert (a + b)[..|a + b| - 1] == a + b[..|b| - 1];
      SumAppend(a, b[..|b| - 1]);
    }
  }

  /** Summing from the front: the first element plus the sum of the rest. */
  lemma SumFront(s: seq<int>)
    requires s != []
    ensures Sum(s) == s[0] + Sum(s[1..])
  {
    assert s == [s[0]] + s[1..];
    SumAppend([s[0]], s[1..]);
    assert [s[0]][..0] == [];
  }

  /** A product is 0 exactly when one of its factors is. */
  lemma {:induction false} ProductZero(s: seq<int>)
    ensures Product(s) == 0 <==> exists k :: 0 <= k < |s| && s[k] == 0
    decreases |s|
  {
    if s != [] {
      var init := s[..|s| - 1];
      ProductZero(init);
      if exists k :: 0 <= k < |init| && init[k] == 0 {
        var k :| 0 <= k < |init| && init[k] == 0;
        assert s[k] == 0;
      }
      if exists k :: 0 <= k < |s| && s[k] == 0 {
        var k :| 0 <= k < |s| && s[k] == 0;
        if k < |init| {
          assert init[k] == 0;
        }
      }
    }
  }

  // ---------------------------------------------------------------------------
  // Decimal text

  predicate IsDigit(c: char)
  {
    '0' <= c <= '9'
  }

  function DigitChar(d: nat): (c: char)
    requires d < 10
    ensures IsDigit(c)
  {
    (('0' as int) + d) as char
  }

  function DigitValue(c: char): int
  {
    (c as int) - ('0' as int)
  }

  /** `String(n)` for a non-negative integer: its decimal digits, no leading zeros. */
  function ShowNat(n: nat): (s: string)
    ensures |s| >= 1
    ensures forall i :: 0 <= i < |s| ==> IsDigit(s[i])
    ensures |s| > 1 ==> s[0] != '0'
    decreases n
  {
    if n < 10 then [DigitChar(n)] else ShowNat(n / 10) + [DigitChar(n % 10)]
  }

  /** `String(n)` for any integer: a minus sign before the digits of a negative one. */
  function ShowInt(n: int): (s: string)
  {
    if n < 0 then "-" + ShowNat(-n) else ShowNat(n)
  }

  /** `parseInt(s, 10)` for a string of decimal digits. */
  function ParseDigits(s: string): int
  {
    if s == [] then 0 else 10 * ParseDigits(s[..|s| - 1]) + DigitValue(s[|s| - 1])
  }

  /** Decimal text reads back as the number it was made from. */
  lemma {:induction false} ParseShow(n: nat)
    ensures ParseDigits(ShowNat(n)) == n
    decreases n
  {
    if n >= 10 {
      var s := ShowNat(n);
      assert s[..|s| - 1] == ShowNat(n / 10);
      ParseShow(n / 10);
    } else {
      assert ShowNat(n)[..0] == [];
    }
  }

  /** `s.padStart(2, "0")`: zeros in front until the text has two characters. */
  function PadTwo(s: string): (t: string)
    ensures |t| == if |s| >= 2 then |s| else 2
    ensures |s| >= 2 ==> t == s
    ensures |s| < 2 ==> t == seq(2 - |s|, _ => '0') + s
    decreases 2 - |s|
  {
    if |s| >= 2 then s else PadTwo("0" + s)
  }

  /** Leading zeros do not change the value read back. */
  lemma {:induction false} ParseLeadingZero(s: string)
    ensures ParseDigits("0" + s) == ParseDigits(s)
    decreases |s|
  {
    if s == [] {
      assert ("0" + s)[..0] == [];
    } else {
      var t := "0" + s;
      assert t[..|t| - 1] == "0" + s[..|s| - 1];
      ParseLeadingZero(s[..|s| - 1]);
    }
  }

  /** A two-digit-padded number reads back as itself. */
  lemma ParsePadded(n: nat)
    ensures ParseDigits(PadTwo(ShowNat(n))) == n
    ensures n < 100 ==> |PadTwo(ShowNat(n))| == 2
  {
    ParseShow(n);
    if n < 10 {
      assert PadTwo(ShowNat(n)) == "0" + ShowNat(n);
      ParseLeadingZero(ShowNat(n));
    } else if n < 100 {
      DigitRangeIsDigitCount(n, 2);
    }
  }
}
