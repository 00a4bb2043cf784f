/** Splitting a number into mantissa and exponent by repeated squaring, over exact
    reals: `frexp`, and `printf_frexp` whose exponent is bounded from below. */
module Frexp {
  import opened Powers

  // ---------------------------------------------------------------------------
  // Products

  function Mul(x: real, y: real): real { x * y }

  lemma MulGrouped(x: real, y: real, z: real)
    ensures Mul(Mul(x, y), z) == Mul(x, Mul(y, z))
  {
  }

  lemma MulTwice(x: real, y: real)
    ensures Mul(x, 2.0 * y) == 2.0 * Mul(x, y)
  {
  }

  lemma MulOne(x: real)
    ensures Mul(x, 1.0) == x && Mul(1.0, x) == x && Mul(0.5, x) == x / 2.0 && Mul(-x, 1.0) == -x
  {
  }

  lemma MulNegative(x: real, y: real)
    ensures Mul(-x, y) == -Mul(x, y)
  {
  }

  lemma MulLess(x: real, y: real, p: real)
    requires p > 0.0
    ensures x < y <==> Mul(x, p) < Mul(y, p)
    ensures x <= y <==> Mul(x, p) <= Mul(y, p)
  {
    if x < y { assert (y - x) * p > 0.0; }
    if y < x { assert (x - y) * p > 0.0; }
  }

  // ---------------------------------------------------------------------------
  // Powers of two

  /** 2^e, for any sign of e. */
  function Exp2(e: int): (p: real)
    ensures p > 0.0
    decreases if e < 0 then -e else e
  {
    if e == 0 then 1.0 else if e > 0 then 2.0 * Exp2(e - 1) else Exp2(e + 1) / 2.0
  }

  lemma Exp2Step(e: int)
    ensures Exp2(e + 1) == 2.0 * Exp2(e)
    ensures Exp2(0) == 1.0 && Exp2(1) == 2.0 && Exp2(-1) == 0.5
  {
  }

  lemma {:induction false} Exp2Add(a: int, b: int)
    ensures Exp2(a + b) == Mul(Exp2(a), Exp2(b))
    decreases if b < 0 then -b else b
  {
    hide Exp2, Mul;
    Exp2Step(0);
    MulOne(Exp2(a));
    if b > 0 {
      Exp2Add(a, b - 1);
      Exp2Step(a + b - 1);
      Exp2Step(b - 1);
      MulTwice(Exp2(a), Exp2(b - 1));
    } else if b < 0 {
      Exp2Add(a, b + 1);
      Exp2Step(a + b);
      Exp2Step(b);
      MulTwice(Exp2(a), Exp2(b));
    }
  }

  lemma {:induction false} Exp2Grows(n: nat)
    ensures Exp2(n) >= n as real + 1.0
  {
    if n > 0 { Exp2Grows(n - 1); }
  }

  lemma {:induction false} Exp2Monotone(a: int, b: int)
    requires a <= b
    ensures Exp2(a) <= Exp2(b)
    decreases b - a
  {
    if a < b {
      Exp2Monotone(a, b - 1);
      Exp2Step(b - 1);
    }
  }

  lemma Squared(i: nat)
    ensures Mul(Exp2(Pow2(i)), Exp2(Pow2(i))) == Exp2(Pow2(i + 1))
    ensures Mul(Exp2(-Pow2(i)), Exp2(-Pow2(i))) == Exp2(-Pow2(i + 1))
    ensures Mul(Exp2(Pow2(i)), Exp2(-Pow2(i))) == 1.0 && Mul(Exp2(-Pow2(i)), Exp2(Pow2(i))) == 1.0
    ensures Mul(Exp2(-Pow2(i + 1)), Exp2(Pow2(i))) == Exp2(-Pow2(i))
    ensures Mul(Exp2(Pow2(i + 1)), Exp2(-Pow2(i))) == Exp2(Pow2(i))
  {
    hide Exp2, Mul;
    Exp2Step(0);
    Exp2Add(Pow2(i), Pow2(i));
    Exp2Add(-Pow2(i), -Pow2(i));
    Exp2Add(Pow2(i), -Pow2(i));
    Exp2Add(-Pow2(i), Pow2(i));
    Exp2Add(-Pow2(i + 1), Pow2(i));
    Exp2Add(Pow2(i + 1), -Pow2(i));
  }

  /** x * 2^exponent is the argument. */
  predicate Stands(x: real, exponent: int, arg: real) { Mul(x, Exp2(exponent)) == arg }

  /** A mantissa and an exponent are determined by what they stand for. */
  lemma SplitUnique(m: real, e: int, m': real, e': int, arg: real)
    requires 0.5 <= m < 1.0 && 0.5 <= m' < 1.0 && Stands(m, e, arg) && Stands(m', e', arg)
    ensures e == e' && m == m'
  {
    hide Exp2, Mul;
    if e < e' {
      SplitOrder(m, e, m', e');
    } else if e' < e {
      SplitOrder(m', e', m, e);
    } else {
      MulLess(m, m', Exp2(e));
    }
  }

  lemma SplitOrder(m: real, e: int, m': real, e': int)
    requires 0.5 <= m < 1.0 && 0.5 <= m' < 1.0 && e < e'
    ensures Mul(m, Exp2(e)) < Mul(m', Exp2(e'))
  {
    hide Exp2, Mul;
    Exp2Monotone(e + 1, e');
    Exp2Step(e);
    MulLess(m, 1.0, Exp2(e));
    MulLess(0.5, m', Exp2(e'));
    MulOne(Exp2(e));
    MulOne(Exp2(e'));
  }

  // ---------------------------------------------------------------------------
  // The tables

  /** The entries filled so far: pow2[j] = 2^2^j and powh[j] = 2^-2^j. */
  ghost predicate Filled(pow2: seq<real>, powh: seq<real>) {
    && |pow2| == |powh|
    && (forall j :: 0 <= j < |pow2| ==> pow2[j] == Exp2(Pow2(j)))
    && (forall j :: 0 <= j < |powh| ==> powh[j] == Exp2(-Pow2(j)))
  }

  /** Taking 2^2^i out of x, and what that does to its bounds. */
  lemma TakeOut(x: real, exponent: int, arg: real, i: nat)
    requires Stands(x, exponent, arg)
    ensures var y := Mul(x, Exp2(-Pow2(i)));
            && Stands(y, exponent + Pow2(i), arg)
            && (x < Exp2(Pow2(i)) <==> y < 1.0) && (1.0 <= x ==> Exp2(-Pow2(i)) <= y)
            && (x < Exp2(Pow2(i + 1)) ==> y < Exp2(Pow2(i)))
  {
    hide Exp2, Mul;
    var p := Exp2(-Pow2(i));
    Exp2Add(-Pow2(i), exponent + Pow2(i));
    MulGrouped(x, p, Exp2(exponent + Pow2(i)));
    Squared(i);
    MulLess(x, Exp2(Pow2(i)), p);
    MulLess(1.0, x, p);
    MulLess(x, Exp2(Pow2(i + 1)), p);
    MulOne(p);
  }

  /** Putting it in. */
  lemma PutIn(x: real, exponent: int, arg: real, i: nat)
    requires Stands(x, exponent, arg)
    ensures var y := Mul(x, Exp2(Pow2(i)));
            && Stands(y, exponent - Pow2(i), arg)
            && (x < Exp2(-Pow2(i)) <==> y < 1.0) && (x < 1.0 ==> y < Exp2(Pow2(i))) && (x > 0.0 ==> y > 0.0)
            && (x >= Exp2(-Pow2(i + 1)) ==> y >= Exp2(-Pow2(i)))
  {
    hide Exp2, Mul;
    var p := Exp2(Pow2(i));
    Exp2Add(Pow2(i), exponent - Pow2(i));
    MulGrouped(x, p, Exp2(exponent - Pow2(i)));
    Squared(i);
    MulLess(x, Exp2(-Pow2(i)), p);
    MulLess(x, 1.0, p);
    MulLess(Exp2(-Pow2(i + 1)), x, p);
    MulLess(0.0, x, p);
    MulOne(p);
    MulZero(p);
  }

  lemma MulZero(p: real)
    ensures Mul(0.0, p) == 0.0
  {
  }

  /** The argument bounds how far the squaring can go. */
  lemma UpBounded(x: real, exponent: nat, arg: real)
    requires Stands(x, exponent, arg) && x >= 1.0
    ensures exponent < arg.Floor
  {
    hide Exp2, Mul;
    Exp2Grows(exponent);
    MulLess(1.0, x, Exp2(exponent));
    MulOne(Exp2(exponent));
  }

  lemma DownBounded(x: real, exponent: int, arg: real)
    requires exponent >= 0 && Stands(x, -exponent, arg) && 0.0 < x < 1.0 && arg > 0.0
    ensures exponent <= (1.0 / arg).Floor
  {
    hide Exp2, Mul;
    Exp2Grows(exponent);
    var p, q := Exp2(exponent), Exp2(-exponent);
    Exp2Step(0);
    Exp2Add(-exponent, exponent);
    MulGrouped(x, q, p);
    MulOne(x);
    assert Mul(arg, p) == x;
    QuotientBound(arg, p);
  }

  lemma QuotientBound(arg: real, p: real)
    requires arg > 0.0 && Mul(arg, p) < 1.0
    ensures p < 1.0 / arg
  {
    var q := 1.0 / arg;
    assert arg * q == 1.0;
    assert p >= q ==> arg * (p - q) >= 0.0;
  }

  /** x >= 1: squaring up to x. */
  method ClimbUp(arg: real) returns (x: real, exponent: int, i: nat, pow2: seq<real>, powh: seq<real>, powhI: real)
    requires arg >= 1.0
    ensures Filled(pow2, powh) && i == |pow2| && powhI == Exp2(-Pow2(i))
    ensures Stands(x, exponent, arg) && 1.0 <= x < Exp2(Pow2(i)) && exponent == Pow2(i) - 1
  {
    hide Exp2, Mul;
    Exp2Step(0);
    MulOne(arg);
    x, exponent, i, pow2, powh := arg, 0, 0, [], [];
    var pow2I := 2.0;
    powhI := 0.5;
    while x >= pow2I
      invariant Filled(pow2, powh) && i == |pow2| && pow2I == Exp2(Pow2(i)) && powhI == Exp2(-Pow2(i))
      invariant Stands(x, exponent, arg) && 1.0 <= x && exponent == Pow2(i) - 1
      decreases arg.Floor - exponent
    {
      TakeOut(x, exponent, arg, i);
      Squared(i);
      UpBounded(x, exponent, arg);
      exponent := exponent + Pow2(i);
      x := Mul(x, powhI);
      pow2, powh := pow2 + [pow2I], powh + [powhI];
      i, pow2I, powhI := i + 1, Mul(pow2I, pow2I), Mul(powhI, powhI);
    }
  }

  /** x < 1: squaring down to x. */
  method ClimbDown(arg: real) returns (x: real, exponent: int, i: nat, pow2: seq<real>, powh: seq<real>)
    requires 0.0 < arg < 1.0
    ensures Filled(pow2, powh) && i == |pow2|
    ensures Stands(x, exponent, arg) && Exp2(-Pow2(i)) <= x < 1.0 && exponent == 1 - Pow2(i)
  {
    hide Exp2, Mul;
    Exp2Step(0);
    MulOne(arg);
    x, exponent, i, pow2, powh := arg, 0, 0, [], [];
    var pow2I, powhI := 2.0, 0.5;
    while x < powhI
      invariant Filled(pow2, powh) && i == |pow2| && pow2I == Exp2(Pow2(i)) && powhI == Exp2(-Pow2(i))
      invariant Stands(x, exponent, arg) && 0.0 < x < 1.0 && exponent == 1 - Pow2(i)
      decreases (1.0 / arg).Floor + exponent
    {
      PutIn(x, exponent, arg, i);
      Squared(i);
      DownBounded(x, -exponent, arg);
      exponent := exponent - Pow2(i);
      x := Mul(x, pow2I);
      pow2, powh := pow2 + [pow2I], powh + [powhI];
      i, pow2I, powhI := i + 1, Mul(pow2I, pow2I), Mul(powhI, powhI);
    }
  }

  function Abs(e: int): nat { if e < 0 then -e else e }

  /** A positive number: mantissa from one half to one. Table entries are only read
      below `filled`. */
  method FrexpPositive(arg: real) returns (x: real, exponent: int, ghost filled: nat)
    requires arg > 0.0
    ensures Stands(x, exponent, arg) && 0.5 <= x < 1.0
    ensures Pow2(filled) <= Abs(exponent) + 1
  {
    hide Exp2, Mul, Stands;
    var i: nat, pow2: seq<real>, powh: seq<real>;
    if arg >= 1.0 {
      var powhI;
      x, exponent, i, pow2, powh, powhI := ClimbUp(arg);
      filled := |pow2|;
      while i > 0 && x < pow2[i - 1]
        invariant i <= |pow2| && x < Exp2(Pow2(i)) && powhI == Exp2(-Pow2(i))
      {
        i := i - 1;
        powhI := powh[i];
      }
      TakeOut(x, exponent, arg, i);
      exponent := exponent + Pow2(i);
      x := Mul(x, powhI);
    } else {
      x, exponent, i, pow2, powh := ClimbDown(arg);
      filled := |pow2|;
    }
    while i > 0
      invariant i <= |pow2| && Stands(x, exponent, arg) && Exp2(-Pow2(i)) <= x < 1.0
      invariant if arg >= 1.0 then exponent - Pow2(i) >= Pow2(filled) - 1 else exponent <= 1 - Pow2(filled)
    {
      i := i - 1;
      PutIn(x, exponent, arg, i);
      if x < powh[i] {
        exponent := exponent - Pow2(i);
        x := Mul(x, pow2[i]);
      }
    }
    Exp2Step(0);
  }

  /** `frexp`, for finite numbers. */
  method Frexp(arg: real) returns (m: real, exponent: int, ghost filled: nat)
    ensures arg == 0.0 ==> m == 0.0 && exponent == 0
    ensures arg != 0.0 ==> m * Exp2(exponent) == arg && (0.5 <= m < 1.0 || -1.0 < m <= -0.5)
    ensures Pow2(filled) <= Abs(exponent) + 1
  {
    if arg + arg == arg {
      return arg, 0, 0;
    }
    m, exponent, filled := FrexpPositive(if arg < 0.0 then -arg else arg);
    MulNegative(m, Exp2(exponent));
    if arg < 0.0 {
      m := -m;
    }
  }

  /** If the exponent fits an `int` of 64 bits or fewer, 64 entries are enough. */
  lemma TableFits(exponent: int, filled: nat, bits: nat)
    requires Pow2(filled) <= Abs(exponent) + 1 && Abs(exponent) < Pow2(bits)
    ensures filled <= bits
  {
    if filled > bits { Pow2Monotone(bits + 1, filled); }
  }

  // ---------------------------------------------------------------------------
  // printf_frexp

  /** x < 1: as far down as the least exponent allows. The entry for the last square
      is not filled if x has passed 1. */
  method ClimbDownTo(arg: real, low: int) returns (x: real, exponent: int, i: nat, pow2: seq<real>, powh: seq<real>)
    requires 0.0 < arg < 1.0 && low <= 0
    ensures Filled(pow2, powh) && i == |pow2| && Stands(x, exponent, arg) && low <= exponent
    ensures (0.0 < x < 1.0 && exponent - Pow2(i) < low) || 1.0 <= x < Exp2(Pow2(i))
    ensures Pow2(|pow2|) <= 1 - low
  {
    hide Exp2, Mul, Stands;
    Exp2Step(0);
    assert Stands(arg, 0, arg) by { StandsAsIs(arg); }
    x, exponent, i, pow2, powh := arg, 0, 0, [], [];
    var pow2I, powhI := 2.0, 0.5;
    while x < 1.0 && exponent - Pow2(i) >= low
      invariant Filled(pow2, powh) && i == |pow2| && low <= exponent && Stands(x, exponent, arg)
      invariant 0.0 < x < Exp2(Pow2(i))
      invariant x < 1.0 ==> pow2I == Exp2(Pow2(i)) && powhI == Exp2(-Pow2(i)) && exponent == 1 - Pow2(i)
      invariant Pow2(i) <= 1 - low
      decreases exponent - low, if x < 1.0 then 1 else 0
    {
      PutIn(x, exponent, arg, i);
      exponent := exponent - Pow2(i);
      x := Mul(x, pow2I);
      if x < 1.0 {
        Squared(i);
        AboveOne(i + 1);
        pow2, powh := pow2 + [pow2I], powh + [powhI];
        i, pow2I, powhI := i + 1, Mul(pow2I, pow2I), Mul(powhI, powhI);
      }
    }
  }

  lemma StandsAsIs(arg: real)
    ensures Stands(arg, 0, arg)
  {
  }

  lemma AboveOne(i: nat)
    ensures Exp2(Pow2(i)) > 1.0
  {
    Exp2Monotone(1, Pow2(i));
    Exp2Step(0);
  }

  /** ... and then by smaller and smaller steps. */
  method StepDownTo(arg: real, low: int, x0: real, e0: int, i0: nat, pow2: seq<real>, ghost powh: seq<real>)
    returns (x: real, exponent: int, i: nat)
    requires Filled(pow2, powh) && i0 <= |pow2| && Stands(x0, e0, arg) && low <= e0
    requires 0.0 < x0 < 1.0 && e0 - Pow2(i0) < low
    ensures i <= |pow2| && Stands(x, exponent, arg) && low <= exponent
    ensures (0.0 < x < 1.0 && exponent == low && i == 0) || 1.0 <= x < Exp2(Pow2(i))
  {
    hide Exp2, Mul, Stands;
    x, exponent, i := x0, e0, i0;
    while i > 0 && x < 1.0
      invariant i <= |pow2| && Stands(x, exponent, arg) && low <= exponent
      invariant (0.0 < x < 1.0 && exponent - Pow2(i) < low) || 1.0 <= x < Exp2(Pow2(i))
      decreases i
    {
      i := i - 1;
      if exponent - Pow2(i) >= low {
        PutIn(x, exponent, arg, i);
        exponent := exponent - Pow2(i);
        x := Mul(x, pow2[i]);
      }
    }
  }

  /** The exponent is at least `minExp - 1`, and the mantissa is from one to two unless
      that exponent is reached. */
  method PrintfFrexp(arg: real, minExp: int) returns (m: real, exponent: int, ghost filled: nat)
    requires arg > 0.0 && minExp <= 1
    ensures m * Exp2(exponent) == arg && exponent >= minExp - 1
    ensures 0.0 < m < 2.0 && (m >= 1.0 || exponent == minExp - 1)
    ensures Pow2(filled) <= Abs(exponent) + 1 || Pow2(filled) <= 2 - minExp
  {
    var x: real, i: nat, pow2: seq<real>, powh: seq<real>;
    hide Exp2, Stands;
    if arg >= 1.0 {
      var powhI;
      x, exponent, i, pow2, powh, powhI := ClimbUp(arg);
    } else {
      x, exponent, i, pow2, powh := ClimbDownTo(arg, minExp - 1);
      if x < 1.0 {
        x, exponent, i := StepDownTo(arg, minExp - 1, x, exponent, i, pow2, powh);
      }
    }
    filled := |pow2|;
    x, exponent := Normalise(arg, minExp - 1, x, exponent, i, pow2, powh);
    m := x;
    StandsProduct(m, exponent, arg);
  }

  lemma StandsProduct(x: real, exponent: int, arg: real)
    requires Stands(x, exponent, arg)
    ensures x * Exp2(exponent) == arg
  {
  }

  method Normalise(arg: real, low: int, x0: real, e0: int, i0: nat, pow2: seq<real>, powh: seq<real>)
    returns (x: real, exponent: int)
    requires Filled(pow2, powh) && i0 <= |pow2| && Stands(x0, e0, arg) && low <= e0
    requires (0.0 < x0 < 1.0 && e0 == low && i0 == 0) || 1.0 <= x0 < Exp2(Pow2(i0))
    ensures Stands(x, exponent, arg) && low <= e0 <= exponent
    ensures (0.0 < x < 1.0 && exponent == low) || 1.0 <= x < 2.0
  {
    hide Exp2, Mul, Stands;
    var i: nat := i0;
    x, exponent := x0, e0;
    while i > 0
      invariant i <= |pow2| && Stands(x, exponent, arg) && e0 <= exponent
      invariant (0.0 < x < 1.0 && exponent == low && i == 0) || 1.0 <= x < Exp2(Pow2(i))
      decreases i
    {
      i := i - 1;
      TakeOut(x, exponent, arg, i);
      if x >= pow2[i] {
        exponent := exponent + Pow2(i);
        x := Mul(x, powh[i]);
      }
    }
    Exp2Step(0);
  }
}
