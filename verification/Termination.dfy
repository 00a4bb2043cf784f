/** Every call of `Parse` ends as long as the trees on the stack have no detours: each turn
    of the loop that does not consume the token adds a node to them, and they cannot grow
    beyond a bound. For an unambiguous grammar whose nonterminals all derive some token
    string, they have none: a tree with the same nonterminal twice over the same tokens
    could be cut short, and the sentence it is part of would have two parses. */
module Termination {
  import opened Grammars
  import opened Automata
  import opened Sorting
  import opened Driver
  import opened Soundness
  import opened Prefix
  import opened Generator
  import opened ParserObject

  // ---------------------------------------------------------------------------
  // Trees without detours

  /** Somewhere in the tree the symbol derives the string. */
  ghost predicate Contains(g: Grammar, t: Tree, x: nat, y: seq<nat>)
    decreases t
  {
    t.Branch? && ((Root(g, t) == x && Yield(t) == y) || exists i ::
      0 <= i < |t.children| && Contains(g, t.children[i], x, y))
  }

  /** No node has another one below it with the same symbol and the same yield. */
  ghost predicate Lean(g: Grammar, t: Tree)
    decreases t
  {
    t.Leaf? || forall i :: 0 <= i < |t.children| ==>
                             !Contains(g, t.children[i], Root(g, t), Yield(t)) && Lean(g, t.children[i])
  }

  lemma {:induction false} YieldPart(ts: seq<Tree>, i: nat)
    requires i < |ts|
    ensures |Yield(ts[i])| <= |Yields(ts)| && (|Yield(ts[i])| == |Yields(ts)| ==> Yield(ts[i]) == Yields(ts))
    ensures Size(ts[i]) <= Sizes(ts)
  {
    if i > 0 { YieldPart(ts[1..], i - 1); }
  }

  /** Taking the tree that is contained. */
  lemma {:induction false} Extract(g: Grammar, t: Tree, x: nat, y: seq<nat>) returns (d: Tree)
    requires ValidTree(g, t) && Contains(g, t, x, y)
    ensures ValidTree(g, d) && Root(g, d) == x && Yield(d) == y && Size(d) <= Size(t)
    decreases t
  {
    if Root(g, t) == x && Yield(t) == y {
      d := t;
    } else {
      var i :| 0 <= i < |t.children| && Contains(g, t.children[i], x, y);
      YieldPart(t.children, i);
      d := Extract(g, t.children[i], x, y);
    }
  }

  lemma {:induction false} ReplaceChild(g: Grammar, ts: seq<Tree>, i: nat, d: Tree)
    requires i < |ts| && Yield(d) == Yield(ts[i]) && Size(d) < Size(ts[i]) && Root(g, d) == Root(g, ts[i])
    ensures Yields(ts[i := d]) == Yields(ts) && Sizes(ts[i := d]) < Sizes(ts) && Roots(g, ts[i := d]) == Roots(g, ts)
  {
    if i == 0 {
      assert ts[0 := d][1..] == ts[1..];
    } else {
      ReplaceChild(g, ts[1..], i - 1, d);
      assert ts[i := d][1..] == ts[1..][i - 1 := d];
    }
    forall k | 0 <= k < |ts| ensures Roots(g, ts[i := d])[k] == Roots(g, ts)[k] {
    }
  }

  /** A tree with a detour can be cut short. */
  lemma {:induction false} Shrink(g: Grammar, t: Tree) returns (d: Tree)
    requires ValidTree(g, t) && !Lean(g, t)
    ensures ValidTree(g, d) && Root(g, d) == Root(g, t) && Yield(d) == Yield(t) && Size(d) < Size(t)
    decreases t
  {
    var i :| 0 <= i < |t.children| && (Contains(g, t.children[i], Root(g, t), Yield(t)) || !Lean(g, t.children[i]));
    if Contains(g, t.children[i], Root(g, t), Yield(t)) {
      YieldPart(t.children, i);
      d := Extract(g, t.children[i], Root(g, t), Yield(t));
    } else {
      var c := Shrink(g, t.children[i]);
      ReplaceChild(g, t.children, i, c);
      d := Branch(t.rule, t.children[i := c]);
    }
  }

  // ---------------------------------------------------------------------------
  // How large a tree without detours can be

  function Height(t: Tree): nat
    decreases t, 1
  {
    if t.Leaf? then 0 else 1 + HeightOf(t.children)
  }

  function HeightOf(ts: seq<Tree>): nat
    decreases ts, 0
  {
    if ts == [] then 0
    else
      var h, k := Height(ts[0]), HeightOf(ts[1..]);
      if h > k then h else k
  }

  lemma {:induction false} HeightOfMax(ts: seq<Tree>, bound: nat)
    requires forall i :: 0 <= i < |ts| ==> Height(ts[i]) <= bound
    ensures HeightOf(ts) <= bound
  {
    if ts != [] { HeightOfMax(ts[1..], bound); }
  }

  function Numbers(n: nat): (s: set<nat>)
    ensures |s| == n && forall x: nat :: x in s <==> x < n
  {
    if n == 0 then {} else Numbers(n - 1) + {n - 1}
  }

  function Symbols(g: Grammar): set<nat> { Numbers(g.NSymbol()) }

  lemma FewerThanSymbols(g: Grammar, used: set<nat>, x: nat)
    requires used <= Symbols(g) && x < g.NSymbol() && x !in used
    ensures |used| < g.NSymbol() && used + {x} <= Symbols(g) && |used + {x}| == |used| + 1
  {
    SubsetSize(used + {x}, Symbols(g));
  }

  /** Levels left below a node with `n` tokens and `k` symbols already used for them. */
  function Levels(g: Grammar, n: nat, k: nat): int { n * g.NSymbol() + g.NSymbol() - k }

  lemma FewerTokens(g: Grammar, m: nat, n: nat)
    requires m < n
    ensures Levels(g, m, 0) <= Levels(g, n, g.NSymbol())
  {
    assert (m + 1) * g.NSymbol() <= n * g.NSymbol();
  }

  /** Going down, either tokens or unused symbols get fewer. */
  lemma {:induction false} LeanIsLow(g: Grammar, t: Tree, used: set<nat>)
    requires g.WellFormed() && ValidTree(g, t) && Lean(g, t) && used <= Symbols(g)
    requires forall x :: x in used ==> !Contains(g, t, x, Yield(t))
    ensures Height(t) <= Levels(g, |Yield(t)|, |used|)
    decreases t
  {
    hide Levels;
    SubsetSize(used, Symbols(g));
    LevelsFacts(g, |Yield(t)|, |used|);
    if t.Branch? {
      var x := Root(g, t);
      assert g.RuleOk(g.rules[t.rule]);
      FewerThanSymbols(g, used, x);
      LevelsFacts(g, |Yield(t)|, |used| + 1);
      var bound: nat := Levels(g, |Yield(t)|, |used| + 1);
      forall i | 0 <= i < |t.children| ensures Height(t.children[i]) <= bound {
        var c := t.children[i];
        YieldPart(t.children, i);
        if |Yield(c)| < |Yield(t)| {
          LeanIsLow(g, c, {});
          FewerTokens(g, |Yield(c)|, |Yield(t)|);
          LevelsFacts(g, |Yield(t)|, g.NSymbol());
        } else {
          LeanIsLow(g, c, used + {x});
        }
      }
      HeightOfMax(t.children, bound);
    }
  }

  lemma LevelsFacts(g: Grammar, n: nat, k: nat)
    ensures k <= g.NSymbol() ==> Levels(g, n, k) >= 0
    ensures k > 0 ==> Levels(g, n, k - 1) == Levels(g, n, k) + 1
    ensures forall j :: 0 <= j <= k ==> Levels(g, n, k) <= Levels(g, n, j)
    ensures k <= g.NSymbol() ==> Levels(g, n, g.NSymbol()) <= Levels(g, n, k)
  {
    assert n * g.NSymbol() >= 0;
  }

  /** Nodes of a tree of height h whose rules have fewer than 256 symbols. */
  function MaxSize(h: nat): nat { if h == 0 then 1 else 1 + 256 * MaxSize(h - 1) }

  lemma {:induction false} MaxSizeGrows(h: nat, k: nat)
    requires h <= k
    ensures MaxSize(h) <= MaxSize(k)
    decreases k - h
  {
    if h < k { MaxSizeGrows(h, k - 1); }
  }

  lemma {:induction false} SizeByHeight(g: Grammar, t: Tree)
    requires g.RhsFits() && ValidTree(g, t)
    ensures Size(t) <= MaxSize(Height(t))
    decreases t, 1
  {
    if t.Branch? {
      SizesByHeight(g, t.children, HeightOf(t.children));
      assert |t.children| == |Roots(g, t.children)| < 256;
      AtMost(|t.children|, 256, MaxSize(HeightOf(t.children)));
    }
  }

  lemma {:induction false} SizesByHeight(g: Grammar, ts: seq<Tree>, h: nat)
    requires g.RhsFits() && ValidForest(g, ts) && HeightOf(ts) <= h
    ensures Sizes(ts) <= |ts| * MaxSize(h)
    decreases ts, 0
  {
    if ts != [] {
      SizeByHeight(g, ts[0]);
      MaxSizeGrows(Height(ts[0]), h);
      SizesByHeight(g, ts[1..], h);
      OneMore(|ts| - 1, MaxSize(h));
    }
  }

  lemma OneMore(n: nat, m: nat)
    ensures m + n * m == (n + 1) * m
  {
  }

  lemma AtMost(a: nat, b: nat, m: nat)
    requires a <= b
    ensures a * m <= b * m
  {
  }

  // ---------------------------------------------------------------------------
  // Completing a sentential form

  /** Every nonterminal derives some token string. */
  ghost predicate Productive(g: Grammar) {
    forall x :: g.nterminal <= x < g.NSymbol() ==> DerivesTokens(g, x)
  }

  ghost predicate DerivesTokens(g: Grammar, x: nat) {
    exists t :: ValidTree(g, t) && Root(g, t) == x && TokensOnly(g, Yield(t))
  }

  /** The leaves of a valid tree are symbols. */
  lemma {:induction false} LeavesAreSymbols(g: Grammar, t: Tree, i: nat)
    requires ValidTree(g, t) && i < |Yield(t)|
    ensures 0 < Yield(t)[i] < g.NSymbol()
    decreases t, 1
  {
    if t.Branch? { LeavesOfForest(g, t.children, i); }
  }

  lemma {:induction false} LeavesOfForest(g: Grammar, ts: seq<Tree>, i: nat)
    requires ValidForest(g, ts) && i < |Yields(ts)|
    ensures 0 < Yields(ts)[i] < g.NSymbol()
    decreases ts, 0
  {
    var n := |Yield(ts[0])|;
    if i < n { LeavesAreSymbols(g, ts[0], i); } else { LeavesOfForest(g, ts[1..], i - n); }
  }

  /** From position i on, all leaves can be turned into tokens. */
  lemma {:induction false} Ripen(g: Grammar, t: Tree, i: nat) returns (v: Tree)
    requires g.WellFormed() && Productive(g) && ValidTree(g, t) && i <= |Yield(t)|
    ensures ValidTree(g, v) && Root(g, v) == Root(g, t) && i <= |Yield(v)|
    ensures Yield(v)[..i] == Yield(t)[..i] && TokensOnly(g, Yield(v)[i..])
    decreases |Yield(t)| - i
  {
    hide ValidTree, Yield;
    if i == |Yield(t)| {
      v := t;
    } else {
      LeavesAreSymbols(g, t, i);
      var u := SomeTokens(g, Yield(t)[i]);
      var w := Graft(g, t, i, u);
      var n := i + |Yield(u)|;
      v := Ripen(g, w, n);
      RipeTail(g, Yield(t), Yield(u), Yield(w), Yield(v), i);
    }
  }

  lemma SomeTokens(g: Grammar, x: nat) returns (u: Tree)
    requires g.WellFormed() && Productive(g) && 0 < x < g.NSymbol()
    ensures ValidTree(g, u) && Root(g, u) == x && TokensOnly(g, Yield(u))
  {
    if x < g.nterminal {
      u := Leaf(x);
    } else {
      assert DerivesTokens(g, x);
      u :| ValidTree(g, u) && Root(g, u) == x && TokensOnly(g, Yield(u));
    }
  }

  lemma RipeTail(g: Grammar, t: seq<nat>, u: seq<nat>, w: seq<nat>, v: seq<nat>, i: nat)
    requires i < |t| && w == t[..i] + u + t[i + 1..] && TokensOnly(g, u)
    requires i + |u| <= |v| && v[..i + |u|] == w[..i + |u|] && TokensOnly(g, v[i + |u|..])
    ensures v[..i] == t[..i] && TokensOnly(g, v[i..])
  {
    var n := i + |u|;
    assert v[..i] == v[..n][..i] == w[..n][..i] == t[..i];
    forall k | 0 <= k < |v[i..]| ensures 0 < v[i..][k] < g.nterminal {
      if k < |u| {
        assert v[i + k] == v[..n][i + k] == w[i + k] == u[k];
      } else {
        assert v[i + k] == v[n..][k - |u|];
      }
    }
  }

  // ---------------------------------------------------------------------------
  // The trees on the stack

  ghost predicate StackLean(g: Grammar, stack: seq<Entry>) {
    forall k :: 0 < k < |stack| ==> Lean(g, stack[k].minor)
  }

  /** In an unambiguous grammar no tree on the stack has a detour. */
  lemma EntryIsLean(g: Grammar, a: Automaton, stack: seq<Entry>, k: nat)
    requires g.WellFormed() && Productive(g) && UnambiguousGrammar(g) && IsAutomaton(g, a) && StackOk(g, a, stack)
    requires 0 < k < |stack| && TokensOnly(g, Kept(stack))
    ensures Lean(g, stack[k].minor)
  {
    hide ValidTree, Yield, Productive, Lean, UnambiguousGrammar, IsAutomaton, InContext;
    var e := stack[k].minor;
    if !Lean(g, e) {
      var d := Shrink(g, e);
      var t, z := EntryContext(g, a, stack, k);
      EntryTokens(g, stack, k);
      TwoParses(g, t, Kept(stack[..k]), z, e, d);
    }
  }

  lemma EntryTokens(g: Grammar, stack: seq<Entry>, k: nat)
    requires 0 < k < |stack| && TokensOnly(g, Kept(stack))
    ensures TokensOnly(g, Kept(stack[..k])) && TokensOnly(g, Yield(stack[k].minor))
    ensures |Yield(stack[k].minor)| <= |Kept(stack)|
  {
    KeptSplit(stack, k);
    var rest := Minors(stack[k..]);
    assert rest[0] == stack[k].minor && Yields(rest) == Yield(rest[0]) + Yields(rest[1..]);
    var low, y := Kept(stack[..k]), Yield(rest[0]);
    assert Kept(stack) == low + y + Yields(rest[1..]);
    forall i | 0 <= i < |low| ensures 0 < low[i] < g.nterminal {
      assert low[i] == Kept(stack)[i];
    }
    forall i | 0 <= i < |y| ensures 0 < y[i] < g.nterminal {
      assert y[i] == Kept(stack)[|low| + i];
    }
  }

  /** The start symbol derives what is below an entry, then its symbol, then tokens. */
  lemma EntryContext(g: Grammar, a: Automaton, stack: seq<Entry>, k: nat) returns (v: Tree, z: seq<nat>)
    requires g.WellFormed() && Productive(g) && IsAutomaton(g, a) && StackOk(g, a, stack) && 0 < k < |stack|
    ensures Derives(g, v, Kept(stack[..k]) + [stack[k].major] + z) && TokensOnly(g, z)
  {
    var below := stack[..k];
    LowerStackOk(g, a, stack, k);
    StackInContext(g, a, below);
    assert Linked(a, stack[k - 1], stack[k]) && StateOk(g, a, stack[k - 1].stateno);
    var j :| j in a[stack[k - 1].stateno].items && ShiftsOn(g, j, stack[k].major);
    assert below[|below| - 1] == stack[k - 1];
    hide ValidTree, Yield, IsAutomaton, StateOk;
    v, z := RipeContext(g, Kept(below), j);
  }

  lemma RipeContext(g: Grammar, kept: seq<nat>, j: Item) returns (v: Tree, z: seq<nat>)
    requires g.WellFormed() && Productive(g) && InContext(g, kept, j) && CanShift(g, j)
    ensures Derives(g, v, kept + [Next(g, j)] + z) && TokensOnly(g, z)
  {
    hide ValidTree, Yield, Productive;
    var t, y :| Derives(g, t, kept + g.rules[j.rule].rhs[j.dot..] + y);
    AfterDot(g, j);
    var n := |kept| + 1;
    v := Ripen(g, t, n);
    z := Yield(v)[n..];
    var head := kept + [Next(g, j)];
    assert Yield(t)[..n] == head;
    assert Yield(v) == Yield(v)[..n] + z;
  }

  /** Two trees for the same place make two parses of a sentence. */
  lemma TwoParses(g: Grammar, t: Tree, kept: seq<nat>, z: seq<nat>, e: Tree, d: Tree)
    requires g.WellFormed() && UnambiguousGrammar(g) && Derives(g, t, kept + [Root(g, e)] + z)
    requires TokensOnly(g, kept) && TokensOnly(g, z) && TokensOnly(g, Yield(e))
    requires ValidTree(g, e) && ValidTree(g, d) && Root(g, d) == Root(g, e) && Yield(d) == Yield(e)
    ensures Size(d) == Size(e)
  {
    hide ValidTree, Yield;
    var i := |kept|;
    var v := Graft(g, t, i, e);
    var w := Graft(g, t, i, d);
    var y := kept + Yield(e) + z;
    assert Yield(t)[..i] == kept && Yield(t)[i + 1..] == z;
    assert Yield(v) == y && Yield(w) == y && TokensOnly(g, y);
    StartIsBranch(g, v);
    StartIsBranch(g, w);
    assert IsParse(g, v, y) && IsParse(g, w, y);
  }

  lemma StartIsBranch(g: Grammar, t: Tree)
    requires g.WellFormed() && Root(g, t) == g.start && TokensOnly(g, Yield(t))
    ensures t.Branch?
  {
    if t.Leaf? { assert Yield(t)[0] == g.start; }
  }

  /** So their sizes are bounded. */
  function EntryBound(g: Grammar, n: nat): nat {
    LevelsGrow(g, n, n);
    MaxSize(Levels(g, n, 0))
  }

  lemma LevelsGrow(g: Grammar, m: nat, n: nat)
    requires m <= n
    ensures 0 <= Levels(g, m, 0) <= Levels(g, n, 0)
  {
    AtMost(m, n, g.NSymbol());
    AtMost(0, m, g.NSymbol());
  }

  lemma EntrySize(g: Grammar, a: Automaton, stack: seq<Entry>, k: nat, n: nat)
    requires g.WellFormed() && g.RhsFits() && StackOk(g, a, stack) && StackLean(g, stack)
    requires k < |stack| && TokensOnly(g, Kept(stack)) && |Kept(stack)| <= n
    ensures Size(stack[k].minor) <= EntryBound(g, n)
  {
    hide ValidTree, Yield, Lean, Contains, Levels, MaxSize;
    var e := stack[k].minor;
    LevelsGrow(g, n, n);
    if k == 0 {
      MaxSizeGrows(0, Levels(g, n, 0));
      LeafSize(e);
    } else {
      EntryTokens(g, stack, k);
      LeanIsLow(g, e, {});
      SizeByHeight(g, e);
      LevelsGrow(g, |Yield(e)|, n);
      MaxSizeGrows(Height(e), Levels(g, n, 0));
    }
  }

  lemma LeafSize(t: Tree)
    requires t.Leaf?
    ensures Size(t) == MaxSize(0)
  {
  }

  // ---------------------------------------------------------------------------
  // The loop of one call

  function StackSize(stack: seq<Entry>): nat { Sizes(Minors(stack)) }

  lemma {:induction false} SizesAppend(a: seq<Tree>, b: seq<Tree>)
    ensures Sizes(a + b) == Sizes(a) + Sizes(b)
  {
    if a == [] {
      assert a + b == b;
    } else {
      assert (a + b)[1..] == a[1..] + b;
      SizesAppend(a[1..], b);
    }
  }

  lemma {:induction false} SizesBound(ts: seq<Tree>, m: nat)
    requires forall i :: 0 <= i < |ts| ==> Size(ts[i]) <= m
    ensures Sizes(ts) <= |ts| * m
  {
    if ts != [] {
      SizesBound(ts[1..], m);
      OneMore(|ts| - 1, m);
    }
  }

  /** A turn that does not consume the token is a reduce, and makes one node more. */
  lemma AgainAddsNode(t: Tables, depth: nat, p: Parser, major: nat)
    requires p.stack != [] && Iterate(t, depth, p, major).Again? && |p.stack| <= depth
    ensures var q := Iterate(t, depth, p, major).parser;
            StackSize(q.stack) == StackSize(p.stack) + 1 && 0 < |q.stack| <= depth
  {
    hide FindShiftAction, FindReduceAction, Sizes;
    var r := FindShiftAction(t, p.stack[|p.stack| - 1].stateno, major).value - t.nstate;
    var size := t.ruleInfo[r].1;
    var base := |p.stack| - size;
    var q := Iterate(t, depth, p, major).parser;
    var e := q.stack[|q.stack| - 1];
    assert q.stack == p.stack[..base] + [e] && e.minor == Branch(r, Minors(p.stack[base..]));
    assert Minors(q.stack) == Minors(p.stack[..base]) + [e.minor];
    assert Minors(p.stack) == Minors(p.stack[..base]) + Minors(p.stack[base..]);
    SizesAppend(Minors(p.stack[..base]), [e.minor]);
    SizesAppend(Minors(p.stack[..base]), Minors(p.stack[base..]));
    SizesOne(e.minor);
  }

  lemma SizesOne(t: Tree)
    ensures Sizes([t]) == Size(t) && (t.Branch? ==> Size(t) == 1 + Sizes(t.children))
  {
    assert [t][1..] == [];
  }

  /** Turns that are enough for one call, for a stack of this depth and n tokens. */
  function TurnBound(g: Grammar, depth: nat, n: nat): nat { depth * EntryBound(g, n) + 1 }

  ghost predicate Bounded(g: Grammar, a: Automaton, look: Lookaheads, t: Tables) {
    Generated(g, a, look, t) && Productive(g) && UnambiguousGrammar(g)
  }

  lemma {:induction false} SubsequenceTokens(g: Grammar, kept: seq<nat>, seen: seq<nat>, i: nat)
    requires Subsequence(kept, seen) && i < |kept| && forall k :: 0 <= k < |seen| ==> seen[k] < g.nterminal
    ensures kept[i] < g.nterminal
    decreases |seen|
  {
    if seen != [] {
      var front := seen[..|seen| - 1];
      if Subsequence(kept, front) {
        SubsequenceTokens(g, kept, front, i);
      } else if i < |kept| - 1 {
        SubsequenceTokens(g, kept[..|kept| - 1], front, i);
      }
    }
  }

  lemma KeptTokens(g: Grammar, a: Automaton, input: seq<nat>, p: Parser)
    requires RunOk(g, a, input, p) && p.stack != [] && InputOk(g, input)
    ensures TokensOnly(g, Kept(p.stack)) && |Kept(p.stack)| <= |input|
  {
    var kept, seen := Kept(p.stack), input[p.from..p.pos];
    hide Yield, Subsequence, ValidTree, IsAutomaton;
    forall i | 0 <= i < |kept| ensures 0 < kept[i] < g.nterminal {
      SubsequenceTokens(g, kept, seen, i);
      KeptPositive(g, a, p.stack, i);
    }
  }

  lemma KeptPositive(g: Grammar, a: Automaton, stack: seq<Entry>, i: nat)
    requires StackOk(g, a, stack) && stack != [] && i < |Kept(stack)|
    ensures 0 < Kept(stack)[i]
  {
    var ts := Minors(stack[1..]);
    forall k | 0 <= k < |ts| ensures ValidTree(g, ts[k]) {
      assert ts[k] == stack[k + 1].minor;
    }
    LeavesOfForest(g, ts, i);
  }

  /** The trees on the stack together are bounded. */
  lemma StackBound(g: Grammar, a: Automaton, depth: nat, input: seq<nat>, p: Parser)
    requires g.WellFormed() && g.RhsFits() && RunOk(g, a, input, p) && InputOk(g, input) && StackLean(g, p.stack)
    requires 0 < |p.stack| <= depth
    ensures StackSize(p.stack) < TurnBound(g, depth, |input|)
  {
    KeptTokens(g, a, input, p);
    assert StackOk(g, a, p.stack);
    hide ValidTree, Yield, StackLean, RunOk, EntryBound, Sizes;
    var m, ts := EntryBound(g, |input|), Minors(p.stack);
    forall k | 0 <= k < |ts| ensures Size(ts[k]) <= m {
      EntrySize(g, a, p.stack, k, |input|);
    }
    SizesBound(ts, m);
    AtMost(|ts|, depth, m);
  }

  /** During the first `n` turns of a call the trees on the stack have no detours. */
  ghost predicate LeanTurns(g: Grammar, t: Tables, depth: nat, p: Parser, major: nat, n: nat)
    requires p.stack != []
    decreases n
  {
    StackLean(g, p.stack) && (n > 0 ==>
      var o := Iterate(t, depth, p, major);
      o.Again? && o.parser.stack != [] ==> LeanTurns(g, t, depth, o.parser, major, n - 1))
  }

  /** The loop goes round no more often than the trees can grow. */
  lemma {:induction false} TurnsEnd(g: Grammar, a: Automaton, look: Lookaheads, t: Tables, depth: nat, input: seq<nat>,
                                    p: Parser, n: nat)
    requires Generated(g, a, look, t) && RunOk(g, a, input, p) && InputOk(g, input) && p.pos < |input|
    requires 0 < |p.stack| <= depth && LeanTurns(g, t, depth, p, input[p.pos], n)
    requires StackSize(p.stack) + n >= TurnBound(g, depth, |input|)
    ensures Turns(t, depth, p, input[p.pos], n).Consumed?
    decreases n
  {
    assert g.WellFormed() && g.RhsFits();
    hide Generated, RunOk, Iterate, StackSize, TurnBound, StackLean;
    StackBound(g, a, depth, input, p);
    if n > 0 {
      IterateKeeps(g, a, look, t, depth, input, p);
      PositionKept(t, depth, p, input[p.pos]);
      var o := Iterate(t, depth, p, input[p.pos]);
      if o.Again? {
        AgainAddsNode(t, depth, p, input[p.pos]);
        TurnsEnd(g, a, look, t, depth, input, o.parser, n - 1);
      }
    }
  }

  lemma LeanCallEnds(g: Grammar, a: Automaton, look: Lookaheads, t: Tables, depth: nat, input: seq<nat>, p: Parser)
    requires Generated(g, a, look, t) && RunOk(g, a, input, p) && InputOk(g, input) && p.pos < |input|
    requires 0 < depth && |p.stack| <= depth
    requires LeanTurns(g, t, depth, Initialised(p), input[p.pos], TurnBound(g, depth, |input|))
    ensures Turns(t, depth, Initialised(p), input[p.pos], TurnBound(g, depth, |input|)).Consumed?
  {
    hide RunOk, IsAutomaton, TablesFor, StackSize, TurnBound, Turns, LeanTurns;
    InitialisedOk(g, a, input, p);
    TurnsEnd(g, a, look, t, depth, input, Initialised(p), TurnBound(g, depth, |input|));
  }

  lemma {:induction false} UnambiguousIsLean(g: Grammar, a: Automaton, look: Lookaheads, t: Tables, depth: nat,
                                             input: seq<nat>, p: Parser, n: nat)
    requires Bounded(g, a, look, t) && RunOk(g, a, input, p) && InputOk(g, input) && p.pos < |input| && p.stack != []
    ensures LeanTurns(g, t, depth, p, input[p.pos], n)
    decreases n
  {
    hide IsAutomaton, TablesFor, Iterate, Productive, UnambiguousGrammar, ValidTree, Lean, Subsequence, LogOk;
    KeptTokens(g, a, input, p);
    forall k | 0 < k < |p.stack| ensures Lean(g, p.stack[k].minor) {
      EntryIsLean(g, a, p.stack, k);
    }
    if n > 0 {
      IterateKeeps(g, a, look, t, depth, input, p);
      PositionKept(t, depth, p, input[p.pos]);
      var o := Iterate(t, depth, p, input[p.pos]);
      if o.Again? {
        UnambiguousIsLean(g, a, look, t, depth, input, o.parser, n - 1);
      }
    }
  }

  /** Every call of `Parse` ends, on every token, after any history. */
  lemma CallEnds(g: Grammar, a: Automaton, look: Lookaheads, t: Tables, depth: nat, input: seq<nat>, p: Parser)
    requires Bounded(g, a, look, t) && RunOk(g, a, input, p) && InputOk(g, input) && p.pos < |input|
    requires 0 < depth && |p.stack| <= depth
    ensures Turns(t, depth, Initialised(p), input[p.pos], TurnBound(g, depth, |input|)).Consumed?
  {
    hide RunOk, IsAutomaton, TablesFor, StackSize, TurnBound, Turns, Productive, UnambiguousGrammar, LeanTurns;
    InitialisedOk(g, a, input, p);
    UnambiguousIsLean(g, a, look, t, depth, input, Initialised(p), TurnBound(g, depth, |input|));
    LeanCallEnds(g, a, look, t, depth, input, p);
  }

  lemma StepDepth(t: Tables, depth: nat, input: seq<nat>, p: Parser)
    requires depth > 0 && |p.stack| <= depth && Step(t, depth, input, p).Some?
    ensures |Step(t, depth, input, p).value.stack| <= depth
  {
  }

  lemma {:induction false} RunDepth(t: Tables, depth: nat, input: seq<nat>, p: Parser, n: nat)
    requires depth > 0 && |p.stack| <= depth && Run(t, depth, input, p, n).Some?
    ensures |Run(t, depth, input, p, n).value.stack| <= depth
    decreases n
  {
    hide Step;
    if n > 0 {
      StepDepth(t, depth, input, p);
      RunDepth(t, depth, input, Step(t, depth, input, p).value, n - 1);
    }
  }
}
