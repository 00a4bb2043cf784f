/** `memchr` a word at a time, for words of any number of bytes, in either byte
    order. A word is the sequence of its bytes, the least significant first. */
module Memchr {
  import opened Powers
  import opened Options

  type Byte = x: int | 0 <= x < 256
  type LongWord = seq<Byte>

  // ---------------------------------------------------------------------------
  // Bits of a byte

  /** A number of n bits without its highest bit. */
  function Low(n: nat, a: nat): (r: nat)
    requires 0 < n && a < Pow2(n)
    ensures r < Pow2(n - 1)
  {
    if a >= Pow2(n - 1) then a - Pow2(n - 1) else a
  }

  /** a & b, from the highest bit down. */
  function And(n: nat, a: nat, b: nat): (r: nat)
    requires a < Pow2(n) && b < Pow2(n)
    ensures r < Pow2(n)
  {
    if n == 0 then 0
    else (if a >= Pow2(n - 1) && b >= Pow2(n - 1) then Pow2(n - 1) else 0) + And(n - 1, Low(n, a), Low(n, b))
  }

  /** a ^ b. */
  function Xor(n: nat, a: nat, b: nat): (r: nat)
    requires a < Pow2(n) && b < Pow2(n)
    ensures r < Pow2(n)
  {
    if n == 0 then 0
    else (if a >= Pow2(n - 1) <==> b >= Pow2(n - 1) then 0 else Pow2(n - 1)) + Xor(n - 1, Low(n, a), Low(n, b))
  }

  lemma {:induction false} XorZero(n: nat, a: nat, b: nat)
    requires a < Pow2(n) && b < Pow2(n)
    ensures Xor(n, a, b) == 0 <==> a == b
  {
    if n > 0 { XorZero(n - 1, Low(n, a), Low(n, b)); }
  }

  lemma {:induction false} AndZero(n: nat, a: nat)
    requires a < Pow2(n)
    ensures And(n, a, 0) == 0
  {
    if n > 0 { AndZero(n - 1, Low(n, a)); }
  }

  lemma EightBits()
    ensures Pow2(8) == 256 && Pow2(7) == 128
  {
    assert Pow2(3) == 8;
    assert Pow2(6) == 64;
  }

  function AndByte(a: Byte, b: Byte): Byte { EightBits(); And(8, a, b) }

  function XorByte(a: Byte, b: Byte): Byte { EightBits(); Xor(8, a, b) }

  function NotByte(a: Byte): Byte { 255 - a }

  /** Masking with 0x80 leaves the highest bit. */
  lemma HighBit(a: Byte, b: Byte)
    ensures AndByte(a, 0x80) == if a >= 0x80 then 0x80 else 0
    ensures AndByte(a, b) >= 0x80 <==> a >= 0x80 && b >= 0x80
  {
    EightBits();
    AndZero(7, Low(8, a));
  }

  // ---------------------------------------------------------------------------
  // Words

  function Value(w: LongWord): nat {
    if w == [] then 0 else w[0] + 256 * Value(w[1..])
  }

  function Range(k: nat): nat { if k == 0 then 1 else 256 * Range(k - 1) }

  function Repeated(b: Byte, k: nat): (w: LongWord)
    ensures |w| == k
  {
    seq(k, _ => b)
  }

  /** Difference with a borrow from below, byte by byte. */
  function Minus(x: LongWord, y: LongWord, borrow: nat): (d: LongWord)
    requires |x| == |y| && borrow <= 1
    ensures |d| == |x|
  {
    if x == [] then []
    else
      var d := x[0] - y[0] - borrow;
      [if d < 0 then d + 256 else d] + Minus(x[1..], y[1..], if d < 0 then 1 else 0)
  }

  /** `Minus` is the machine's subtraction, modulo the range of a word. */
  lemma {:induction false} MinusIs(x: LongWord, y: LongWord, borrow: nat)
    requires |x| == |y| && borrow <= 1
    ensures Value(Minus(x, y, borrow)) < Range(|x|)
    ensures var exact := Value(x) - Value(y) - borrow;
            Value(Minus(x, y, borrow)) == exact || Value(Minus(x, y, borrow)) == exact + Range(|x|)
  {
    if x != [] {
      var d := x[0] - y[0] - borrow;
      MinusIs(x[1..], y[1..], if d < 0 then 1 else 0);
      var m := Minus(x, y, borrow);
      assert m[0] == (if d < 0 then d + 256 else d) && m[1..] == Minus(x[1..], y[1..], if d < 0 then 1 else 0);
    }
  }

  function AndWord(a: LongWord, b: LongWord): (r: LongWord)
    requires |a| == |b|
    ensures |r| == |a|
  {
    seq(|a|, i requires 0 <= i < |a| => AndByte(a[i], b[i]))
  }

  function XorWord(a: LongWord, b: LongWord): (r: LongWord)
    requires |a| == |b|
    ensures |r| == |a|
  {
    seq(|a|, i requires 0 <= i < |a| => XorByte(a[i], b[i]))
  }

  function NotWord(a: LongWord): (r: LongWord)
    ensures |r| == |a|
  {
    seq(|a|, i requires 0 <= i < |a| => NotByte(a[i]))
  }

  predicate Zero(w: LongWord) { forall i :: 0 <= i < |w| ==> w[i] == 0 }

  /** ((x - 0x01..01) & ~x) & 0x80..80 */
  function Test(x: LongWord): LongWord {
    AndWord(AndWord(Minus(x, Repeated(1, |x|), 0), NotWord(x)), Repeated(0x80, |x|))
  }

  /** Without a zero byte nothing is ever borrowed. */
  lemma {:induction false} NoBorrow(x: LongWord)
    requires forall i :: 0 <= i < |x| ==> x[i] != 0
    ensures Minus(x, Repeated(1, |x|), 0) == seq(|x|, i requires 0 <= i < |x| => x[i] - 1)
  {
    if x != [] {
      NoBorrow(x[1..]);
      assert Repeated(1, |x|)[1..] == Repeated(1, |x[1..]|);
    }
  }

  /** Up to the first zero byte nothing is borrowed; there, the byte becomes 0xff. */
  lemma {:induction false} FirstBorrow(x: LongWord, j: nat)
    requires j < |x| && x[j] == 0 && forall i :: 0 <= i < j ==> x[i] != 0
    ensures Minus(x, Repeated(1, |x|), 0)[j] == 255
  {
    assert Repeated(1, |x|)[1..] == Repeated(1, |x[1..]|);
    if j > 0 {
      FirstBorrow(x[1..], j - 1);
    }
  }

  lemma {:induction false} FirstZero(x: LongWord, k: nat) returns (j: nat)
    requires k < |x| && x[k] == 0
    ensures j <= k && x[j] == 0 && forall i :: 0 <= i < j ==> x[i] != 0
  {
    j := 0;
    while x[j] != 0
      invariant j <= k && forall i :: 0 <= i < j ==> x[i] != 0
      decreases k - j
    {
      j := j + 1;
    }
  }

  /** The test is nonzero exactly if some byte of the word is zero. */
  lemma TestExact(x: LongWord)
    ensures Zero(Test(x)) <==> forall i :: 0 <= i < |x| ==> x[i] != 0
  {
    var d := Minus(x, Repeated(1, |x|), 0);
    forall i | 0 <= i < |x|
      ensures Test(x)[i] == if d[i] >= 0x80 && x[i] < 0x80 then 0x80 else 0
    {
      HighBit(d[i], NotByte(x[i]));
      HighBit(AndByte(d[i], NotByte(x[i])), 0);
    }
    if forall i :: 0 <= i < |x| ==> x[i] != 0 {
      NoBorrow(x);
    }
    if k :| 0 <= k < |x| && x[k] == 0 {
      var j := FirstZero(x, k);
      FirstBorrow(x, j);
      assert Test(x)[j] != 0;
    }
  }

  // ---------------------------------------------------------------------------
  // The constants

  function Or(a: Byte, b: Byte): Byte
    requires a == 0 || b == 0 || a == b
  {
    if a == 0 then b else a
  }

  /** The first m bytes hold `b`, the others nothing. */
  function Filled(b: Byte, m: nat, k: nat): (w: LongWord)
    ensures |w| == k
  {
    seq(k, i requires 0 <= i < k => if i < m then b else 0)
  }

  /** w | (w << 8 * m) */
  function OrShifted(w: LongWord, m: nat, b: Byte): (r: LongWord)
    requires w == Filled(b, m, |w|)
    ensures |r| == |w|
  {
    seq(|w|, i requires 0 <= i < |w| => Or(w[i], if i < m then 0 else w[i - m]))
  }

  /** One byte, doubled until it fills the word. */
  method Repeat(c: Byte, k: nat) returns (w: LongWord)
    requires k >= 4
    ensures w == Repeated(c, k)
  {
    w := Filled(c, 1, k);
    w := OrShifted(w, 1, c);
    assert w == Filled(c, 2, k);
    w := OrShifted(w, 2, c);
    assert w == Filled(c, 4, k);
    if k > 4 {
      w := OrShifted(w, 4, c);
      assert w == Filled(c, 8, k);
      if 8 < k {
        var m := 8;
        while m < k
          invariant 8 <= m && w == Filled(c, m, k)
        {
          w := OrShifted(w, m, c);
          assert w == Filled(c, 2 * m, k);
          m := 2 * m;
        }
      }
    }
  }

  // ---------------------------------------------------------------------------
  // The search

  /** The word at position i, in the byte order of the machine. */
  function WordAt(s: seq<Byte>, i: nat, k: nat, bigEndian: bool): (w: LongWord)
    requires i + k <= |s|
    ensures |w| == k
  {
    seq(k, j requires 0 <= j < k => if bigEndian then s[i + k - 1 - j] else s[i + j])
  }

  lemma XorFinds(w: LongWord, c: Byte)
    ensures forall j :: 0 <= j < |w| ==> (XorWord(w, Repeated(c, |w|))[j] == 0 <==> w[j] == c)
  {
    EightBits();
    hide Xor, Pow2;
    forall j | 0 <= j < |w| ensures XorWord(w, Repeated(c, |w|))[j] == 0 <==> w[j] == c {
      XorZero(8, w[j], c);
    }
  }

  /** The word test tells whether the byte is among these. */
  lemma WordTest(s: seq<Byte>, i: nat, k: nat, bigEndian: bool, c: Byte)
    requires i + k <= |s|
    ensures Zero(Test(XorWord(WordAt(s, i, k, bigEndian), Repeated(c, k)))) <==> c !in s[i..i + k]
  {
    hide Test, XorWord, Zero, Repeated;
    var w := WordAt(s, i, k, bigEndian);
    var x := XorWord(w, Repeated(c, k));
    TestExact(x);
    XorFinds(w, c);
    if c in s[i..i + k] {
      var j :| 0 <= j < k && s[i..i + k][j] == c;
      assert w[if bigEndian then k - 1 - j else j] == c;
    }
    forall j | 0 <= j < k ensures w[j] in s[i..i + k] {
      assert w[j] == s[i..i + k][if bigEndian then k - 1 - j else j];
    }
  }

  lemma NotInLonger(s: seq<Byte>, i: nat, j: nat, c: Byte)
    requires i <= j <= |s|
    ensures c in s[..j] <==> c in s[..i] || c in s[i..j]
  {
    assert s[..j] == s[..i] + s[i..j];
  }

  /** The least position of the byte among the first n, for every alignment `addr` of
      the buffer and every word size. */
  method Memchr(s: seq<Byte>, addr: nat, cin: int, n: nat, sizeof: nat, bigEndian: bool) returns (found: Option<nat>)
    requires n <= |s| && sizeof >= 4
    ensures var c := cin % 256;
            match found
            case None => c !in s[..n]
            case Some(i) => i < n && s[i] == c && c !in s[..i]
  {
    var c: Byte := cin % 256;
    var i := 0;
    while i < n && (addr + i) % sizeof != 0
      invariant i <= n && c !in s[..i]
    {
      if s[i] == c {
        return Some(i);
      }
      NotInLonger(s, i, i + 1, c);
      i := i + 1;
    }
    var ones := Repeat(1, sizeof);
    var repeated := Repeat(c, sizeof);
    var high := Repeat(0x80, sizeof);
    var hit := false;
    while n - i >= sizeof && !hit
      invariant i <= n && c !in s[..i]
      decreases n - i, !hit
    {
      var x := XorWord(WordAt(s, i, sizeof, bigEndian), repeated);
      WordTest(s, i, sizeof, bigEndian, c);
      if !Zero(AndWord(AndWord(Minus(x, ones, 0), NotWord(x)), high)) {
        hit := true;
      } else {
        NotInLonger(s, i, i + sizeof, c);
        i := i + sizeof;
      }
    }
    while i < n
      invariant i <= n && c !in s[..i]
    {
      if s[i] == c {
        return Some(i);
      }
      NotInLonger(s, i, i + 1, c);
      i := i + 1;
    }
    return None;
  }
}
