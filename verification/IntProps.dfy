/** Two macros of `intprops.h`: how many characters an integer needs, and whether a
    product overflows. */
module IntProps {
  import opened CDivision

  // ---------------------------------------------------------------------------
  // Powers

  function Pow(a: nat, n: nat): nat { if n == 0 then 1 else a * Pow(a, n - 1) }

  lemma Swap3(a: nat, b: nat, c: nat)
    ensures a * (b * c) == (a * b) * c && a * (b * c) == b * (a * c)
  {
  }

  lemma {:induction false} PowAdd(a: nat, m: nat, n: nat)
    ensures Pow(a, m + n) == Pow(a, m) * Pow(a, n)
    decreases m
  {
    if m > 0 {
      PowAdd(a, m - 1, n);
      Swap3(a, Pow(a, m - 1), Pow(a, n));
    }
  }

  lemma {:induction false} PowPow(a: nat, m: nat, n: nat)
    ensures Pow(Pow(a, m), n) == Pow(a, m * n)
    decreases n
  {
    if n > 0 {
      PowPow(a, m, n - 1);
      PowAdd(a, m, m * (n - 1));
      assert m + m * (n - 1) == m * n;
    }
  }

  lemma {:induction false} PowPositive(a: nat, n: nat)
    requires a > 0
    ensures Pow(a, n) > 0
  {
    if n > 0 {
      PowPositive(a, n - 1);
      ProductLess(0, a, 0, Pow(a, n - 1));
    }
  }

  lemma ProductLess(a: nat, b: nat, c: nat, d: nat)
    requires a < b && c < d
    ensures a * c < b * d
  {
    assert b * d >= b * (c + 1);
    assert b * c >= a * c;
  }

  lemma ProductAtMost(a: nat, b: nat, c: nat, d: nat)
    requires a <= b && c <= d
    ensures a * c <= b * d
  {
    assert b * d >= b * c >= a * c;
  }

  lemma {:induction false} PowBase(a: nat, b: nat, n: nat)
    ensures a <= b ==> Pow(a, n) <= Pow(b, n)
    ensures a < b && n > 0 ==> Pow(a, n) < Pow(b, n)
  {
    if n > 0 {
      PowBase(a, b, n - 1);
      if a < b {
        PowPositive(b, n - 1);
        if n > 1 {
          ProductLess(a, b, Pow(a, n - 1), Pow(b, n - 1));
        }
      }
    }
  }

  lemma {:induction false} PowExponent(a: nat, m: nat, n: nat)
    requires a > 0 && m <= n
    ensures Pow(a, m) <= Pow(a, n)
    decreases n - m
  {
    if m < n {
      PowExponent(a, m, n - 1);
      ProductAtMost(1, a, Pow(a, n - 1), Pow(a, n - 1));
    }
  }

  /** The next powers, given one. */
  lemma Doubled(a: nat, n: nat)
    ensures Pow(a, 2 * n) == Pow(a, n) * Pow(a, n) && Pow(a, 2 * n + 1) == a * (Pow(a, n) * Pow(a, n))
  {
    PowAdd(a, n, n);
  }

  lemma TwoTo97()
    ensures Pow(2, 97) == 158456325028528675187087900672
  {
    assert Pow(2, 6) == 64;
    hide Pow;
    Doubled(2, 6);
    Doubled(2, 12);
    Doubled(2, 24);
    Doubled(2, 48);
  }

  lemma TenTo18()
    ensures Pow(10, 18) == 1000000000000000000
  {
    assert Pow(10, 4) == 10000;
    hide Pow;
    Doubled(10, 4);
    Doubled(10, 9);
  }

  /** log10(2) < 146/485. */
  lemma Convergent()
    ensures Pow(2, 485) < Pow(10, 146)
  {
    TwoTo97();
    TenTo18();
    hide Pow;
    var x, m := 158456325028529, 1000000000000000000;
    PowPow(2, 97, 5);
    PowBase(Pow(2, 97), x * 1000000000000000, 5);
    FifthPower(x * 1000000000000000);
    Doubled(10, 18);
    Doubled(10, 36);
    Doubled(10, 73);
    assert Pow(10, 36) == m * m && Pow(10, 73) == 10 * ((m * m) * (m * m));
  }

  lemma FifthPower(x: nat)
    ensures Pow(x, 5) == x * x * x * x * x
  {
    assert Pow(x, 1) == x;
    assert Pow(x, 2) == x * x;
    assert Pow(x, 3) == x * (x * x);
  }

  /** Squaring a bound from below, rounded down to y * 10^k. */
  lemma SquareBelow(n: nat, x: nat, m: nat, odd: bool, y: nat, k: nat)
    requires x * Pow(10, m) <= Pow(2, n) && y * Pow(10, k) <= (if odd then 2 else 1) * (x * x)
    ensures y * Pow(10, 2 * m + k) <= Pow(2, if odd then 2 * n + 1 else 2 * n)
  {
    hide Pow;
    var c, p := if odd then 2 else 1, Pow(10, m);
    Doubled(2, n);
    Doubled(10, m);
    PowAdd(10, 2 * m, k);
    ProductAtMost(x * p, Pow(2, n), x * p, Pow(2, n));
    ProductAtMost(y * Pow(10, k), c * (x * x), p * p, p * p);
    Squares(c, x, p, y, Pow(10, k));
  }

  lemma Squares(c: nat, x: nat, p: nat, y: nat, q: nat)
    ensures (c * (x * x)) * (p * p) == c * ((x * p) * (x * p))
    ensures (y * q) * (p * p) == y * ((p * p) * q)
  {
    Swap3(x, p, x * p);
    Swap3(p, x, p);
    Swap3(x, x, p * p);
    Swap3(c, x * x, p * p);
    Swap3(y, q, p * p);
    assert (x * p) * (x * p) == x * (p * (x * p)) == x * (x * (p * p)) == (x * x) * (p * p);
  }

  /** The same from above. */
  lemma SquareAbove(n: nat, x: nat, m: nat, odd: bool, y: nat, k: nat)
    requires Pow(2, n) <= x * Pow(10, m) && (if odd then 2 else 1) * (x * x) <= y * Pow(10, k)
    ensures Pow(2, if odd then 2 * n + 1 else 2 * n) <= y * Pow(10, 2 * m + k)
  {
    hide Pow;
    var c, p := if odd then 2 else 1, Pow(10, m);
    Doubled(2, n);
    Doubled(10, m);
    PowAdd(10, 2 * m, k);
    ProductAtMost(Pow(2, n), x * p, Pow(2, n), x * p);
    ProductAtMost(c * (x * x), y * Pow(10, k), p * p, p * p);
    Squares(c, x, p, y, Pow(10, k));
  }

  lemma SmallPowers()
    ensures Pow(10, 7) == 10000000 && Pow(10, 12) == 1000000000000 && Pow(10, 13) == 10000000000000
    ensures Pow(10, 14) == 100000000000000
    ensures Pow(2, 66) == 73786976294838206464 && Pow(2, 81) == 2417851639229258349412352
  {
    assert Pow(10, 3) == 1000 && Pow(2, 4) == 16 && Pow(2, 5) == 32;
    hide Pow;
    Doubled(10, 3);
    Doubled(10, 6);
    Doubled(10, 7);
    Doubled(2, 4);
    Doubled(2, 8);
    Doubled(2, 16);
    Doubled(2, 33);
    Doubled(2, 5);
    Doubled(2, 10);
    Doubled(2, 20);
    Doubled(2, 40);
  }

  /** 643/2136 < log10(2). */
  lemma ConvergentBelow()
    ensures Pow(10, 643) < Pow(2, 2136)
  {
    SmallPowers();
    hide Pow;
    SquareBelow(66, 7378697629483, 7, true, 1088903574146, 14);
    SquareBelow(133, 1088903574146, 28, true, 2371421987575, 12);
    SquareBelow(267, 2371421987575, 68, false, 5623642243154, 12);
    SquareBelow(534, 5623642243154, 148, false, 3162535207898, 13);
    SquareBelow(1068, 3162535207898, 309, false, 1000162894119, 13);
    PowAdd(10, 12, 631);
    PowPositive(10, 631);
  }

  lemma Below2621()
    ensures Pow(2, 2621) < Pow(10, 789)
  {
    SmallPowers();
    hide Pow;
    SquareAbove(81, 2417851639230, 12, true, 1169201309866, 13);
    SquareAbove(163, 1169201309866, 37, true, 2734063405985, 12);
    SquareAbove(327, 2734063405985, 86, true, 1495020541590, 13);
    SquareAbove(655, 1495020541590, 185, false, 2235086419777, 12);
    SquareAbove(1310, 2235086419777, 382, true, 9991222607744, 12);
    PowAdd(10, 13, 776);
    PowPositive(10, 776);
  }

  // ---------------------------------------------------------------------------
  // Decimal digits

  function Digits(n: nat): nat { if n < 10 then 1 else 1 + Digits(n / 10) }

  lemma {:induction false} DigitsBelow(n: nat, d: nat)
    requires d > 0
    ensures Digits(n) <= d <==> n < Pow(10, d)
    decreases d
  {
    if d == 1 {
      assert Pow(10, 1) == 10;
    } else if n < 10 {
      PowExponent(10, 1, d);
    } else {
      DigitsBelow(n / 10, d - 1);
    }
  }

  /** INT_BITS_STRLEN_BOUND */
  function BitsStrlenBound(b: nat): nat { (b * 146 + 484) / 485 }

  /** 2^b is below the power of ten of that many digits. */
  lemma BelowPowerOf10(b: nat)
    requires b > 0
    ensures Pow(2, b) < Pow(10, BitsStrlenBound(b))
  {
    hide Pow;
    var d := BitsStrlenBound(b);
    assert 485 * d >= 146 * b;
    Convergent();
    PowBase(Pow(2, 485), Pow(10, 146), b);
    PowPow(2, 485, b);
    PowPow(10, 146, b);
    PowExponent(10, 146 * b, 485 * d);
    PowPow(2, b, 485);
    PowPow(10, d, 485);
    assert 485 * b == b * 485 && 485 * d == d * 485;
    PowBase(Pow(10, d), Pow(2, b), 485);
  }

  /** One digit less is too few, as long as there are fewer than 2621 bits. */
  lemma AbovePowerOf10(b: nat)
    requires 0 < b < 2621
    ensures Pow(10, BitsStrlenBound(b) - 1) < Pow(2, b)
  {
    hide Pow;
    var d := BitsStrlenBound(b) - 1;
    RoomBelow(b, d);
    ConvergentBelow();
    PowBase(Pow(10, 643), Pow(2, 2136), b);
    PowPow(10, 643, b);
    PowPow(2, 2136, b);
    PowExponent(10, 2136 * d, 643 * b);
    PowPow(10, d, 2136);
    PowPow(2, b, 2136);
    assert 2136 * d == d * 2136 && 2136 * b == b * 2136;
    PowBase(Pow(2, b), Pow(10, d), 2136);
  }

  /** 146/485 exceeds 643/2136 by 1/(485 * 2136), so that only a remainder of 1 could do
      harm; it occurs for b = 196 + 485 * k, that is, for 2136 and next for 2621. */
  lemma RoomBelow(b: nat, d: nat)
    requires 0 < b < 2621 && d == BitsStrlenBound(b) - 1
    ensures 2136 * d <= 643 * b
  {
    var r := 146 * b - 485 * d;
    assert 1 <= r;
    if r == 1 {
      var k := 196 * d - 59 * b;
      assert b == 196 + 485 * k;
    }
    assert b <= 2136 * r;
    assert 485 * (643 * b) == 2136 * (146 * b) - b;
  }

  /** The largest number of b bits. */
  function Largest(b: nat): nat {
    PowPositive(2, b);
    Pow(2, b) - 1
  }

  /** The bound is tight below 2621 bits: the largest number needs that many digits. */
  lemma BoundTight(b: nat)
    requires 0 < b < 2621
    ensures Digits(Largest(b)) == BitsStrlenBound(b) == Digits(Pow(2, b))
  {
    AbovePowerOf10(b);
    BelowPowerOf10(b);
    hide Pow, Digits;
    var d := BitsStrlenBound(b);
    DigitsBelow(Largest(b), d);
    DigitsBelow(Pow(2, b), d);
    if d > 1 {
      DigitsBelow(Largest(b), d - 1);
      DigitsBelow(Pow(2, b), d - 1);
    }
    DigitsPositive(Largest(b));
    DigitsPositive(Pow(2, b));
  }

  lemma DigitsPositive(n: nat)
    ensures Digits(n) > 0
  {
  }

  /** And 2621 is the first number of bits for which it is not. */
  lemma NotTightAt2621()
    ensures Digits(Largest(2621)) < BitsStrlenBound(2621)
  {
    Below2621();
    hide Pow, Digits;
    DigitsBelow(Largest(2621), 789);
  }

  /** The bound holds for every number of at most b bits. */
  ghost predicate Enough(b: nat) {
    forall n: nat :: n < Pow(2, b) ==> Digits(n) <= BitsStrlenBound(b)
  }

  lemma EnoughForOne(b: nat, n: nat)
    requires b > 0 && n < Pow(2, b)
    ensures Digits(n) <= BitsStrlenBound(b)
  {
    BelowPowerOf10(b);
    DigitsBelow(n, BitsStrlenBound(b));
  }

  /** That is so exactly if there is at least one bit. */
  lemma BoundExact(b: nat)
    ensures Enough(b) <==> b > 0
  {
    assert Digits(0) > BitsStrlenBound(0) && 0 < Pow(2, 0);
    hide Pow, Digits, BitsStrlenBound;
    if b > 0 {
      forall n: nat | n < Pow(2, b) ensures Digits(n) <= BitsStrlenBound(b) {
        EnoughForOne(b, n);
      }
    }
  }

  /** Characters needed for an integer, with its sign. */
  function Strlen(n: int): nat { if n < 0 then 1 + Digits(-n) else Digits(n) }

  /** INT_STRLEN_BOUND for a type of `width` bits. */
  function StrlenBound(width: nat, signed: bool): nat
    requires width > 0
  {
    if signed then BitsStrlenBound(width - 1) + 1 else BitsStrlenBound(width)
  }

  /** Enough for every value of the type, the most negative one included. */
  lemma StrlenFits(width: nat, signed: bool, n: int)
    requires width > 1
    requires if signed then -(Pow(2, width - 1) as int) <= n < Pow(2, width - 1) else 0 <= n < Pow(2, width)
    ensures Strlen(n) <= StrlenBound(width, signed)
  {
    var b := if signed then width - 1 else width;
    BelowPowerOf10(b);
    DigitsBelow(if n < 0 then -n else n, BitsStrlenBound(b));
  }

  /** The value of the type that needs all the characters. */
  function Longest(width: nat, signed: bool): int
    requires width > 0
  {
    if signed then -(Pow(2, width - 1) as int) else Largest(width)
  }

  lemma StrlenTight(width: nat, signed: bool)
    requires 1 < width < 2621
    ensures Strlen(Longest(width, signed)) == StrlenBound(width, signed)
  {
    var b := if signed then width - 1 else width;
    PowPositive(2, b);
    hide Pow, Digits;
    BoundTight(b);
  }

  // ---------------------------------------------------------------------------
  // Products

  /** INT_MULTIPLY_RANGE_OVERFLOW */
  predicate MultiplyOverflows(a: int, b: int, min: int, max: int) {
    if b < 0 then
      if a < 0 then a < CDiv(max, b) else if b == -1 then false else CDiv(min, b) < a
    else if b == 0 then false
    else if a < 0 then a < CDiv(min, b) else CDiv(max, b) < a
  }

  lemma ExceedsQuotient(a: nat, p: nat, m: nat)
    requires p > 0
    ensures a * p > m <==> a > m / p
  {
    var q := m / p;
    assert m == p * q + m % p;
    if a > q {
      assert a * p >= (q + 1) * p == p * q + p;
    } else {
      assert a * p <= q * p;
    }
  }

  /** Exactly the products outside the type are reported, for signed types in two's
      complement or sign and magnitude, and for unsigned types. */
  lemma MultiplyExact(a: int, b: int, min: int, max: int)
    requires 0 <= max && (min == 0 || min == -max || min == -max - 1)
    requires min <= a <= max && min <= b <= max
    ensures MultiplyOverflows(a, b, min, max) <==> !(min <= a * b <= max)
  {
    var x, y := if a < 0 then -a else a, if b < 0 then -b else b;
    Magnitude(a, b);
    if y > 0 {
      ExceedsQuotient(x, y, max);
      ExceedsQuotient(x, y, -min);
    }
  }

  lemma Magnitude(a: int, b: int)
    ensures a * b == (if (a < 0) == (b < 0) then 1 else -1) * ((if a < 0 then -a else a) * (if b < 0 then -b else b))
    ensures (if a < 0 then -a else a) * (if b < 0 then -b else b) >= 0
  {
  }
}
