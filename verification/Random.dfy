/** `random_r` and its companions: additive feedback on a circular table, in place
    in the caller's array, whose first word remembers the kind of generator and
    the position. */
module Random {
  import opened CDivision

  /** A 32-bit word, as an unsigned number. */
  type Word = x: int | 0 <= x < 0x1_0000_0000

  function Signed(w: Word): int { if w < 0x8000_0000 then w else w - 0x1_0000_0000 }

  const MAX_TYPES: nat := 5

  function Degree(typ: nat): nat {
    match typ case 1 => 7 case 2 => 15 case 3 => 31 case 4 => 63 case _ => 0
  }

  function Separation(typ: nat): nat {
    match typ case 1 => 3 case 2 => 1 case 3 => 3 case 4 => 1 case _ => 0
  }

  lemma SeparationFits(typ: nat)
    requires 0 < typ < MAX_TYPES
    ensures 0 < Separation(typ) < Degree(typ) <= 63
  {
  }

  // ---------------------------------------------------------------------------
  // The sequence of numbers

  /** A generator: the words that matter, the oldest first. */
  datatype Gen = Gen(typ: nat, words: seq<Word>)

  predicate GenOk(g: Gen) {
    g.typ < MAX_TYPES && |g.words| == if g.typ == 0 then 1 else Degree(g.typ)
  }

  function Lcg(w: Word): Word { (w * 1103515245 + 12345) % 0x8000_0000 }

  function Sum(a: Word, b: Word): Word { (a + b) % 0x1_0000_0000 }

  /** The laws of the three recurrences, in plain arithmetic. */
  predicate Added(z: int, x: int, y: int) { z == (x + y) % 0x1_0000_0000 }

  predicate Congruent(z: int, x: int) { z == (x * 1103515245 + 12345) % 0x8000_0000 }

  predicate Multiplied(z: int, x: int) {
    z == (16807 * (if x < 0x8000_0000 then x else x - 0x1_0000_0000)) % 2147483647
  }

  /** The newest word is the sum of the words `deg` and `sep` places back. */
  function Next(words: seq<Word>, sep: nat): (r: seq<Word>)
    requires 0 < sep < |words|
    ensures |r| == |words|
  {
    words[1..] + [Sum(words[0], words[|words| - sep])]
  }

  function NextGen(g: Gen): (r: Gen)
    requires GenOk(g)
    ensures GenOk(r)
  {
    if g.typ == 0 then g.(words := [Lcg(g.words[0])])
    else SeparationFits(g.typ); g.(words := Next(g.words, Separation(g.typ)))
  }

  /** The number drawn is the newest word, less its lowest bit for the additive
      generators. */
  function Drawn(g: Gen): int
    requires GenOk(g)
  {
    var w := NextGen(g).words;
    SeparationFits(if g.typ == 0 then 1 else g.typ);
    if g.typ == 0 then w[0] else w[|w| - 1] / 2
  }

  function After(g: Gen, n: nat): (r: Gen)
    requires GenOk(g)
    ensures GenOk(r) && r.typ == g.typ
  {
    if n == 0 then g else NextGen(After(g, n - 1))
  }

  /** All the words, old and new. */
  function Stream(words: seq<Word>, sep: nat, n: nat): (s: seq<Word>)
    requires 0 < sep < |words|
    ensures |s| == |words| + n
  {
    if n == 0 then words
    else
      var s := Stream(words, sep, n - 1);
      s + [Sum(s[n - 1], s[|s| - sep])]
  }

  /** The recurrence, over any number of draws. */
  lemma {:induction false} StreamRecurrence(words: seq<Word>, sep: nat, n: nat, i: nat)
    requires 0 < sep < |words| <= i < |words| + n
    ensures var x := Stream(words, sep, n); Added(x[i], x[i - |words|], x[i - sep])
  {
    if i < |words| + n - 1 {
      StreamRecurrence(words, sep, n - 1, i);
    }
  }

  /** The table always holds the end of the sequence. */
  lemma {:induction false} AfterIsStream(g: Gen, n: nat)
    requires GenOk(g) && g.typ != 0
    ensures var sep := Separation(g.typ);
            0 < sep < |g.words| && After(g, n).words == Stream(g.words, sep, n)[n..]
  {
    SeparationFits(g.typ);
    var sep, deg := Separation(g.typ), |g.words|;
    if n > 0 {
      AfterIsStream(g, n - 1);
      var s, s' := Stream(g.words, sep, n - 1), Stream(g.words, sep, n);
      var w := After(g, n - 1).words;
      assert w[0] == s[n - 1] && w[deg - sep] == s[|s| - sep] && w[1..] == s[n..];
      assert s'[n..] == s[n..] + [Sum(s[n - 1], s[|s| - sep])];
    }
  }

  lemma {:induction false} AfterAfter(g: Gen, m: nat, n: nat)
    requires GenOk(g)
    ensures After(After(g, m), n) == After(g, m + n)
  {
    hide NextGen, GenOk;
    if n > 0 { AfterAfter(g, m, n - 1); }
  }

  /** The number drawn is the next word of the sequence, halved. */
  lemma DrawnIsStream(g: Gen, k: nat, n: nat)
    requires GenOk(g) && g.typ != 0 && k < n
    ensures var sep := Separation(g.typ);
            0 < sep < |g.words| && Drawn(After(g, k)) == Stream(g.words, sep, n)[|g.words| + k] / 2
  {
    AfterIsStream(g, k + 1);
    StreamPrefix(g.words, Separation(g.typ), k + 1, n);
    hide Stream, Next;
    var w := After(g, k + 1).words;
    assert w == Stream(g.words, Separation(g.typ), k + 1)[k + 1..];
  }

  lemma {:induction false} StreamPrefix(words: seq<Word>, sep: nat, m: nat, n: nat)
    requires 0 < sep < |words| && m <= n
    ensures Stream(words, sep, m) == Stream(words, sep, n)[..|words| + m]
  {
    if m < n { StreamPrefix(words, sep, m, n - 1); }
  }

  // ---------------------------------------------------------------------------
  // Seeding

  const MODULUS: int := 2147483647

  /** 16807 times the word, modulo 2^31 - 1, in 32-bit steps. */
  method SeedStep(word: int) returns (w: int)
    requires -0x8000_0000 <= word < 0x8000_0000
    ensures 0 <= w < MODULUS && w == (16807 * word) % MODULUS
  {
    var hi := CDiv(word, 127773);
    var lo := CRem(word, 127773);
    assert word == 127773 * hi + lo;
    assert -127773 < lo < 127773 && -16808 < hi < 16808;
    w := 16807 * lo - 2836 * hi;
    assert -0x8000_0000 <= 16807 * lo < 0x8000_0000 && -0x8000_0000 <= w < 0x8000_0000;
    if w < 0 {
      w := w + 2147483647;
    }
    assert 16807 * word == w + MODULUS * (if 16807 * lo - 2836 * hi < 0 then hi - 1 else hi);
  }

  function Seeds(seed: Word, deg: nat): (s: seq<Word>)
    ensures |s| == deg
  {
    if deg == 0 then []
    else if deg == 1 then [seed]
    else
      var s := Seeds(seed, deg - 1);
      s + [(16807 * Signed(s[deg - 2])) % MODULUS]
  }

  // ---------------------------------------------------------------------------
  // The circular table

  /** The words from the front cursor on, around the table. */
  function Window(table: seq<Word>, f: nat): (w: seq<Word>)
    requires f < |table|
    ensures |w| == |table|
  {
    table[f..] + table[..f]
  }

  function Front(rear: nat, sep: nat, deg: nat): nat
    requires deg > 0
  {
    (rear + sep) % deg
  }

  /** The front cursor's word is the oldest one, and the rear cursor's is the one
      `sep` places back; adding it and moving on is a step of the sequence. */
  lemma WindowStep(table: seq<Word>, f: nat, r: nat, sep: nat)
    requires 0 < sep < |table| && r < |table| && f == Front(r, sep, |table|)
    ensures f < |table| && Window(table, f)[0] == table[f] && Window(table, f)[|table| - sep] == table[r]
    ensures var f' := if f + 1 == |table| then 0 else f + 1;
            Window(table[f := Sum(table[f], table[r])], f') == Next(Window(table, f), sep)
  {
    var deg := |table|;
    CursorsApart(r, sep, deg);
    var w := Window(table, f);
    assert w[0] == table[f] && w[deg - sep] == table[r];
  }

  /** The cursors keep their distance, so that only one of them can wrap. */
  lemma CursorsApart(r: nat, sep: nat, deg: nat)
    requires 0 < sep < deg && r < deg
    ensures Front(r, sep, deg) == if r + sep < deg then r + sep else r + sep - deg
    ensures Front(r, sep, deg) + 1 == deg ==> r + 1 < deg
    ensures var r' := if r + 1 == deg then 0 else r + 1; var f := Front(r, sep, deg);
            Front(r', sep, deg) == if f + 1 == deg then 0 else f + 1
  {
    var r' := if r + 1 == deg then 0 else r + 1;
    WrapOnce(r + sep, deg);
    WrapOnce(r' + sep, deg);
  }

  lemma WrapOnce(x: nat, d: nat)
    requires 0 < d && x < 2 * d
    ensures x % d == if x < d then x else x - d
  {
    var q := x / d;
    assert x == d * q + x % d;
    assert q >= 2 ==> d * q >= d * 2;
    assert q == 0 || q == 1;
  }

  // ---------------------------------------------------------------------------
  // The first word

  /** The kind and the rear cursor, in one word. */
  function Code(typ: nat, rear: nat): int { if typ == 0 then 0 else MAX_TYPES * rear + typ }

  function KindOf(word: Word): int { CRem(Signed(word), MAX_TYPES) }

  function RearOf(word: Word): int { CDiv(Signed(word), MAX_TYPES) }

  lemma CodeRoundTrip(typ: nat, rear: nat)
    requires typ < MAX_TYPES && rear <= 63
    ensures 0 <= Code(typ, rear) < 0x8000_0000
    ensures KindOf(Code(typ, rear)) == typ && (typ != 0 ==> RearOf(Code(typ, rear)) == rear)
  {
  }

  /** An array whose first word fits what follows. */
  predicate Restorable(a: seq<Word>) {
    && |a| >= 2
    && (KindOf(a[0]) > 0 ==> 0 <= RearOf(a[0]) < Degree(KindOf(a[0])) < |a|)
  }

  /** The generator left in an array. */
  function GenIn(a: seq<Word>): Gen
    requires Restorable(a) && 0 <= KindOf(a[0])
  {
    var typ := KindOf(a[0]);
    if typ == 0 then Gen(0, [a[1]]) else GenAt(a, typ, RearOf(a[0]))
  }

  function GenAt(a: seq<Word>, typ: nat, rear: nat): Gen
    requires 0 < Degree(typ) < |a|
  {
    Gen(typ, Window(a[1..Degree(typ) + 1], Front(rear, Separation(typ), Degree(typ))))
  }

  /** One draw, in the array. */
  lemma GenStep(a: seq<Word>, typ: nat, f: nat, r: nat)
    requires 0 < typ < MAX_TYPES && Degree(typ) < |a| && r < Degree(typ) && f == Front(r, Separation(typ), Degree(typ))
    ensures f < Degree(typ) && GenOk(GenAt(a, typ, r))
    ensures var val, r' := Sum(a[1 + f], a[1 + r]), if r + 1 == Degree(typ) then 0 else r + 1;
            GenAt(a[1 + f := val], typ, r') == NextGen(GenAt(a, typ, r)) && Drawn(GenAt(a, typ, r)) == val / 2
  {
    hide Degree, Separation, Sum, Front, Window;
    SeparationFits(typ);
    var deg, sep := Degree(typ), Separation(typ);
    CursorsApart(r, sep, deg);
    var table, val := a[1..deg + 1], Sum(a[1 + f], a[1 + r]);
    WindowStep(table, f, r, sep);
    assert a[1 + f := val][1..deg + 1] == table[f := val];
    assert table[f] == a[1 + f] && table[r] == a[1 + r];
  }

  /** Storing the code makes the generator in use the one left in the array. */
  lemma SavedGen(a: seq<Word>, typ: nat, rear: nat)
    requires typ < MAX_TYPES && |a| >= 2 && Degree(typ) < |a| && (typ != 0 ==> rear < Degree(typ))
    requires a[0] == Code(typ, rear)
    ensures Restorable(a) && KindOf(a[0]) == typ
    ensures GenIn(a) == if typ == 0 then Gen(0, [a[1]]) else GenAt(a, typ, rear)
  {
    if typ != 0 { SeparationFits(typ); }
    CodeRoundTrip(typ, if typ == 0 then 0 else rear);
  }

  /** The best generator for an array of n bytes. */
  function TypeFor(n: nat): nat
    requires n >= 8
  {
    if n < 32 then 0 else if n < 64 then 1 else if n < 128 then 2 else if n < 256 then 3 else 4
  }

  /** What seeding leads to: the first ten rounds are thrown away. */
  function Seeded(seed: Word, typ: nat): (g: Gen)
    requires typ < MAX_TYPES
    ensures GenOk(g)
  {
    var s: Word := if seed == 0 then 1 else seed;
    if typ == 0 then Gen(0, [s])
    else
      SeparationFits(typ);
      After(Gen(typ, Window(Seeds(s, Degree(typ)), Separation(typ))), 10 * Degree(typ))
  }

  /** It is the largest whose words fit behind the first one. */
  lemma TypeForBest(n: nat)
    requires n >= 8
    ensures TypeFor(n) < MAX_TYPES && 4 * (Degree(TypeFor(n)) + 1) <= n
    ensures forall typ :: TypeFor(n) < typ < MAX_TYPES ==> n < 4 * (Degree(typ) + 1)
  {
  }

  /** The whole sequence as it is usually described: the seed and its successors under
      multiplication by 16807, the first few of them again, and from there on sums. */
  ghost predicate Classical(y: seq<Word>, seed: Word, deg: nat, sep: nat) {
    && 0 < sep < deg && |y| >= deg + sep && y[0] == (if seed == 0 then 1 else seed)
    && (forall i :: 0 < i < deg ==> Multiplied(y[i], y[i - 1]))
    && (forall i :: deg <= i < deg + sep ==> y[i] == y[i - deg])
    && (forall i :: deg + sep <= i < |y| ==> Added(y[i], y[i - deg], y[i - sep]))
  }

  /** What is drawn after seeding: the sequence without its first ten rounds, halved. */
  ghost predicate DrawnFrom(drawn: seq<int>, seed: Word, deg: nat, sep: nat) {
    exists y :: Classical(y, seed, deg, sep) && |y| == 11 * deg + sep + |drawn|
                && forall k :: 0 <= k < |drawn| ==> drawn[k] == y[11 * deg + sep + k] / 2
  }

  lemma {:induction false} SeedsRecurrence(seed: Word, deg: nat, i: nat)
    requires i < deg
    ensures var y := Seeds(seed, deg);
            if i == 0 then y[0] == seed
            else Multiplied(y[i], y[i - 1])
  {
    if i < deg - 1 { SeedsRecurrence(seed, deg - 1, i); }
  }

  lemma ClassicalHolds(seed: Word, typ: nat, drawn: seq<int>)
    requires 0 < typ < MAX_TYPES
    requires forall k :: 0 <= k < |drawn| ==> drawn[k] == Drawn(After(Seeded(seed, typ), k))
    ensures DrawnFrom(drawn, seed, Degree(typ), Separation(typ))
  {
    hide Degree, Separation, Seeds, Stream, Drawn, After, NextGen, Added, Multiplied, Window, Classical;
    SeparationFits(typ);
    var deg, sep, s: Word := Degree(typ), Separation(typ), if seed == 0 then 1 else seed;
    var seeds, n := Seeds(s, deg), 10 * deg + |drawn|;
    var g := Gen(typ, Window(seeds, sep));
    var x := Stream(g.words, sep, n);
    var y := seeds[..sep] + x;
    forall k | 0 <= k < |drawn| ensures drawn[k] == y[11 * deg + sep + k] / 2 {
      AfterAfter(g, 10 * deg, k);
      DrawnIsStream(g, 10 * deg + k, n);
      assert y[sep + (deg + 10 * deg + k)] == x[deg + 10 * deg + k];
    }
    IsClassical(seed, deg, sep, s, n);
  }

  lemma IsClassical(seed: Word, deg: nat, sep: nat, s: Word, n: nat)
    requires 0 < sep < deg && s == if seed == 0 then 1 else seed
    ensures Classical(Seeds(s, deg)[..sep] + Stream(Window(Seeds(s, deg), sep), sep, n), seed, deg, sep)
  {
    hide Seeds, Added, Multiplied, Stream;
    var words := Window(Seeds(s, deg), sep);
    var x := Stream(words, sep, n);
    var y := Seeds(s, deg)[..sep] + x;
    StreamBegins(words, sep, n);
    ClassicalBegins(seed, deg, sep, s, Seeds(s, deg), x, y);
    forall i | deg + sep <= i < |y| ensures Added(y[i], y[i - deg], y[i - sep]) {
      StreamRecurrence(words, sep, n, i - sep);
      var k := i - sep;
      assert y[sep + k] == x[k] && y[sep + (k - deg)] == x[k - deg] && y[sep + (k - sep)] == x[k - sep];
    }
  }

  lemma StreamBegins(words: seq<Word>, sep: nat, n: nat)
    requires 0 < sep < |words|
    ensures Stream(words, sep, n)[..|words|] == words
  {
    StreamPrefix(words, sep, 0, n);
  }

  lemma ClassicalBegins(seed: Word, deg: nat, sep: nat, s: Word, seeds: seq<Word>, x: seq<Word>, y: seq<Word>)
    requires 0 < sep < deg && s == (if seed == 0 then 1 else seed) && seeds == Seeds(s, deg) && |x| >= deg
    requires x[..deg] == seeds[sep..] + seeds[..sep] && y == seeds[..sep] + x
    ensures y[..deg] == seeds && y[0] == s
    ensures forall i :: 0 < i < deg ==> Multiplied(y[i], y[i - 1])
    ensures forall i :: deg <= i < deg + sep ==> y[i] == y[i - deg]
  {
    hide Seeds, Multiplied;
    assert y[..deg + sep] == seeds + seeds[..sep] by {
      assert y[..deg + sep] == seeds[..sep] + x[..deg];
    }
    assert forall i :: 0 <= i < deg ==> y[i] == y[..deg + sep][i] == seeds[i];
    forall i | deg <= i < deg + sep ensures y[i] == y[i - deg] {
      assert y[i] == y[..deg + sep][i] == seeds[i - deg];
    }
    SeedsRecurrence(s, deg, 0);
    forall i | 0 < i < deg ensures Multiplied(y[i], y[i - 1]) {
      SeedsRecurrence(s, deg, i);
    }
  }

  /** The simplest generator. */
  ghost predicate Congruential(drawn: seq<int>, first: int) {
    forall k :: 0 <= k < |drawn| ==> Congruent(drawn[k], if k == 0 then first else drawn[k - 1])
  }

  lemma {:induction false} CongruentialHolds(g: Gen, drawn: seq<int>)
    requires GenOk(g) && g.typ == 0 && forall k :: 0 <= k < |drawn| ==> drawn[k] == Drawn(After(g, k))
    ensures Congruential(drawn, g.words[0])
  {
    hide Drawn, NextGen, GenOk, After, Congruent;
    SimpleStep(g);
    forall k | 0 <= k < |drawn| ensures Congruent(drawn[k], if k == 0 then g.words[0] else drawn[k - 1]) {
      AfterStep(g, k);
      SimpleStep(After(g, k));
      if k > 0 {
        AfterStep(g, k - 1);
        SimpleStep(After(g, k - 1));
      }
    }
  }

  lemma SimpleStep(g: Gen)
    requires GenOk(g) && g.typ == 0
    ensures |g.words| == 1 && |NextGen(g).words| == 1
    ensures Drawn(g) == NextGen(g).words[0] && Congruent(Drawn(g), g.words[0])
  {
  }

  lemma AfterStep(g: Gen, n: nat)
    requires GenOk(g)
    ensures After(g, n + 1) == NextGen(After(g, n)) && After(g, 0) == g
  {
    hide NextGen, GenOk;
  }

  /** `struct random_data`; the cursors count from the word after the first. */
  class RandomData {
    var state: array?<Word>
    var typ: nat
    var deg: nat
    var sep: nat
    var fptr: nat
    var rptr: nat

    /** The cursors apart, all is in order. */
    ghost predicate Shaped()
      reads this
    {
      && typ < MAX_TYPES && deg == Degree(typ) && sep == Separation(typ)
      && state != null && state.Length >= 2 && deg < state.Length
    }

    ghost predicate Valid()
      reads this
    {
      Shaped() && (typ != 0 ==> rptr < deg && fptr == Front(rptr, sep, deg))
    }

    /** The generator that is in use. */
    ghost function Current(): (g: Gen)
      reads this, state
      requires Valid()
      ensures GenOk(g)
    {
      if typ == 0 then Gen(0, [state[1]]) else GenAt(state[..], typ, rptr)
    }

    /** All fields zero. */
    constructor ()
      ensures state == null
    {
      state := null;
      typ, deg, sep, fptr, rptr := 0, 0, 0, 0, 0;
    }

    method Random() returns (result: int)
      requires Valid()
      modifies this`fptr, this`rptr, state
      ensures Valid() && result == Drawn(old(Current())) && Current() == NextGen(old(Current()))
      ensures state[0] == old(state[0])
    {
      if typ == 0 {
        var val := Lcg(state[1]);
        state[1] := val;
        result := val;
      } else {
        result := Additive();
      }
    }

    method Additive() returns (result: int)
      requires Valid() && typ != 0
      modifies this`fptr, this`rptr, state
      ensures Valid() && result == Drawn(old(Current())) && Current() == NextGen(old(Current()))
      ensures state[0] == old(state[0])
    {
      hide Degree, Separation, Front, Sum, GenAt, GenOk, NextGen, Drawn;
      GenStep(state[..], typ, fptr, rptr);
      var val := Sum(state[1 + fptr], state[1 + rptr]);
      ghost var after := state[..][1 + fptr := val];
      state[1 + fptr] := val;
      assert state[..] == after;
      result := val / 2;
      MoveOn();
    }

    /** Both cursors move on, but only one is looked after if the other wraps. */
    method MoveOn()
      requires Valid() && typ != 0
      modifies this`fptr, this`rptr
      ensures Valid()
      ensures fptr == if old(fptr) + 1 == deg then 0 else old(fptr) + 1
      ensures rptr == if old(rptr) + 1 == deg then 0 else old(rptr) + 1
    {
      SeparationFits(typ);
      hide Degree, Separation, Front;
      CursorsApart(rptr, sep, deg);
      fptr := fptr + 1;
      if fptr >= deg {
        fptr := 0;
        rptr := rptr + 1;
      } else {
        rptr := rptr + 1;
        if rptr >= deg {
          rptr := 0;
        }
      }
    }

    /** `srandom_r`. */
    method Seed(seed: Word)
      requires Shaped()
      modifies this`fptr, this`rptr, state
      ensures Valid() && Current() == Seeded(seed, typ) && state[0] == old(state[0])
    {
      var s: Word := if seed == 0 then 1 else seed;
      state[1] := s;
      if typ != 0 {
        SeparationFits(typ);
        hide Degree, Separation, Seeds, Window;
        FillTable(s);
        fptr, rptr := sep, 0;
        assert Front(0, sep, deg) == sep;
        ghost var start := Gen(typ, Window(Seeds(s, deg), sep));
        assert state[..][1..deg + 1] == state[1..deg + 1];
        assert Current() == start;
        for kc := 0 to 10 * deg
          invariant Valid() && GenOk(start) && Current() == After(start, kc) && state[0] == old(state[0])
        {
          var discard := Random();
        }
      }
    }

    method FillTable(s: Word)
      requires Shaped() && typ != 0 && state[1] == s
      modifies state
      ensures state[1..deg + 1] == Seeds(s, deg) && state[0] == old(state[0])
    {
      SeparationFits(typ);
      hide Degree, Separation;
      var word := Signed(s);
      for i := 1 to deg
        invariant state[1..i + 1] == Seeds(s, i) && word == Signed(state[i]) && state[0] == old(state[0])
      {
        ghost var done := state[1..i + 1];
        word := SeedStep(word);
        state[i + 1] := word;
        assert state[1..i + 2] == done + [state[i + 1]];
        assert done[i - 1] == state[i];
      }
    }

    /** Remembering the position in the array that is in use. */
    method Save()
      requires Valid()
      modifies state
      ensures Restorable(state[..]) && KindOf(state[0]) == typ
      ensures state[0] as int == if typ == 0 then 0 else 5 * rptr + typ
      ensures Current() == old(Current()) == GenIn(state[..])
    {
      if typ != 0 { SeparationFits(typ); }
      CodeRoundTrip(typ, if typ == 0 then 0 else rptr);
      ghost var before := state[..];
      state[0] := Code(typ, rptr);
      assert state[..][1..deg + 1] == before[1..deg + 1];
      SavedGen(state[..], typ, rptr);
    }

    /** `initstate_r`: saves the generator in use, if any, and starts another. */
    method InitState(seed: Word, arg: array<Word>, n: nat) returns (ok: bool)
      requires (state == null || Valid()) && n <= 4 * arg.Length
      modifies this, state, arg
      ensures ok <==> n >= 8
      ensures ok ==> Valid() && state == arg && typ == TypeFor(n) && Current() == Seeded(seed, typ)
      ensures ok ==> Restorable(arg[..]) && KindOf(arg[0]) == typ && GenIn(arg[..]) == Current()
      ensures old(state) != null && (ok ==> arg != old(state)) ==>
                Restorable(old(state)[..]) && KindOf(old(state)[0]) >= 0 && GenIn(old(state)[..]) == old(Current())
      ensures !ok ==> state == old(state) && (state != null ==> Valid() && Current() == old(Current()))
    {
      if state != null {
        Save();
      }
      ghost var kept := if state == null then [] else state[..];
      ghost var was := state;
      if n < 8 {
        return false;
      }
      typ := TypeFor(n);
      sep, deg := Separation(typ), Degree(typ);
      state := arg;
      Seed(seed);
      Save();
      ok := true;
      assert was != null && was != arg ==> was[..] == kept;
    }

    /** `setstate_r`: saves the generator in use and goes on with the one left in
        `arg`, which may be the same. */
    method SetState(arg: array<Word>) returns (ok: bool)
      requires Valid() && (arg == state || Restorable(arg[..]))
      modifies this, state
      ensures Restorable(old(state)[..]) && KindOf(old(state)[0]) >= 0 && GenIn(old(state)[..]) == old(Current())
      ensures ok <==> KindOf(arg[0]) >= 0
      ensures ok ==> Valid() && state == arg && Current() == GenIn(arg[..])
      ensures !ok ==> state == old(state) && Valid() && Current() == old(Current())
    {
      hide Window, Front;
      Save();
      var kind := KindOf(arg[0]);
      if kind < 0 || kind > 4 {
        return false;
      }
      deg, sep, typ := Degree(kind), Separation(kind), kind;
      if typ != 0 {
        SeparationFits(typ);
        rptr := RearOf(arg[0]);
        fptr := Front(rptr, sep, deg);
      }
      state := arg;
      ok := true;
    }
  }

  /** Switching to another array, drawing any number of times, and switching back
      goes on as if nothing had happened. */
  method Interlude(rd: RandomData, other: array<Word>, draws: nat)
    requires rd.Valid() && other != rd.state && Restorable(other[..]) && KindOf(other[0]) >= 0
    modifies rd, rd.state, other
    ensures rd.Valid() && rd.state == old(rd.state) && rd.Current() == old(rd.Current())
  {
    var mine := rd.state;
    ghost var g := rd.Current();
    var ok := rd.SetState(other);
    ghost var kept := mine[..];
    for i := 0 to draws
      invariant rd.Valid() && rd.state == other && mine[..] == kept
    {
      var drawn := rd.Random();
    }
    ok := rd.SetState(mine);
    assert mine[..] == kept;
  }

  /** Drawing any number of times. */
  method Draw(rd: RandomData, n: nat) returns (drawn: seq<int>)
    requires rd.Valid()
    modifies rd`fptr, rd`rptr, rd.state
    ensures rd.Valid() && |drawn| == n && rd.Current() == After(old(rd.Current()), n)
    ensures forall k :: 0 <= k < n ==> drawn[k] == Drawn(After(old(rd.Current()), k))
  {
    hide Drawn, NextGen, After, GenAt, Degree, Separation, Front;
    ghost var g := rd.Current();
    drawn := [];
    AfterStep(g, 0);
    for i := 0 to n
      invariant rd.Valid() && |drawn| == i && rd.Current() == After(g, i)
      invariant forall k :: 0 <= k < i ==> drawn[k] == Drawn(After(g, k))
    {
      AfterStep(g, i);
      var x := rd.Random();
      drawn := drawn + [x];
    }
  }

  /** Seeding and drawing: the numbers of the documented generators, whose polynomials
      are x^7 + x^3 + 1, x^15 + x + 1, x^31 + x^3 + 1 and x^63 + x + 1. */
  method SeedAndDraw(rd: RandomData, seed: Word, n: nat) returns (drawn: seq<int>)
    requires rd.Shaped()
    modifies rd`fptr, rd`rptr, rd.state
    ensures rd.Valid() && |drawn| == n
    ensures rd.typ == 0 ==> Congruential(drawn, if seed == 0 then 1 else seed)
    ensures rd.typ == 1 ==> DrawnFrom(drawn, seed, 7, 3)
    ensures rd.typ == 2 ==> DrawnFrom(drawn, seed, 15, 1)
    ensures rd.typ == 3 ==> DrawnFrom(drawn, seed, 31, 3)
    ensures rd.typ == 4 ==> DrawnFrom(drawn, seed, 63, 1)
  {
    hide DrawnFrom, Congruential, NextGen, Drawn, After;
    rd.Seed(seed);
    drawn := Draw(rd, n);
    if rd.typ == 0 {
      CongruentialHolds(Seeded(seed, 0), drawn);
    } else {
      ClassicalHolds(seed, rd.typ, drawn);
    }
  }
}
