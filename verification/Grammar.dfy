/** Grammars as LEMON sees them once the grammar file has been read, and the
    parse trees that give a grammar its meaning. */
module Grammars {
  import opened Options

  datatype Assoc = LEFT | RIGHT | NONASSOC | UNK

  /** What the conflict resolver needs to know about a symbol. */
  datatype Symbol = Symbol(prec: int, assoc: Assoc)

  datatype Rule = Rule(lhs: nat, rhs: seq<nat>, precsym: Option<nat>)

  /** Symbols are numbered: 0 is the end-of-input token `$`, the tokens are
      1..nterminal-1, the nonterminals nterminal..NSymbol()-1. */
  datatype Grammar = Grammar(nterminal: nat, symbols: seq<Symbol>, rules: seq<Rule>, start: nat) {

    function NSymbol(): nat { |symbols| }

    predicate IsTerminal(x: nat) { x < nterminal }

    /** What the grammar-file reader hands over. The scanner cannot produce `$`
        on a right-hand side, left-hand sides are nonterminals, and a symbol
        has a precedence exactly when it has an associativity. */
    predicate WellFormed() {
      && 1 <= nterminal <= start < |symbols|
      && (forall r :: 0 <= r < |rules| ==> RuleOk(rules[r]))
      && (forall x :: 0 <= x < |symbols| ==> (symbols[x].prec >= 0 ==> symbols[x].assoc != UNK))
    }

    predicate RuleOk(rule: Rule) {
      && nterminal <= rule.lhs < |symbols|
      && (forall i :: 0 <= i < |rule.rhs| ==> 0 < rule.rhs[i] < |symbols|)
      && (rule.precsym.Some? ==> rule.precsym.value < |symbols|)
    }

    /** The check LEMON makes (and reports as an error) before building states. */
    predicate StartNotOnRhs() {
      forall r, i :: 0 <= r < |rules| && 0 <= i < |rules[r].rhs| ==> rules[r].rhs[i] != start
    }

    /** `yyRuleInfo.nrhs` is an `unsigned char`. */
    predicate RhsFits() {
      forall r :: 0 <= r < |rules| ==> |rules[r].rhs| < 256
    }

    predicate IsStartRule(r: nat) { r < |rules| && rules[r].lhs == start }
  }

  // ---------------------------------------------------------------------------
  // Parse trees

  /** A leaf is any symbol, so a tree stands for a derivation of a sentential
      form; it derives a sentence when its yield holds tokens only. */
  datatype Tree = Leaf(symbol: nat) | Branch(rule: nat, children: seq<Tree>)

  function Root(g: Grammar, t: Tree): nat {
    match t
    case Leaf(x) => x
    case Branch(r, _) => if r < |g.rules| then g.rules[r].lhs else 0
  }

  function Roots(g: Grammar, ts: seq<Tree>): (xs: seq<nat>) {
    seq(|ts|, i requires 0 <= i < |ts| => Root(g, ts[i]))
  }

  ghost predicate ValidTree(g: Grammar, t: Tree) {
    match t
    case Leaf(x) => 0 < x < g.NSymbol()
    case Branch(r, ch) =>
      && r < |g.rules|
      && Roots(g, ch) == g.rules[r].rhs
      && forall i :: 0 <= i < |ch| ==> ValidTree(g, ch[i])
  }

  ghost predicate ValidForest(g: Grammar, ts: seq<Tree>) {
    forall i :: 0 <= i < |ts| ==> ValidTree(g, ts[i])
  }

  function Yield(t: Tree): seq<nat>
    decreases t, 1
  {
    match t
    case Leaf(x) => [x]
    case Branch(_, ch) => Yields(ch)
  }

  function Yields(ts: seq<Tree>): seq<nat>
    decreases ts, 0
  {
    if ts == [] then [] else Yield(ts[0]) + Yields(ts[1..])
  }

  function Size(t: Tree): (n: nat)
    ensures n >= 1
    decreases t, 1
  {
    match t
    case Leaf(_) => 1
    case Branch(_, ch) => 1 + Sizes(ch)
  }

  function Sizes(ts: seq<Tree>): nat
    decreases ts, 0
  {
    if ts == [] then 0 else Size(ts[0]) + Sizes(ts[1..])
  }

  predicate TokensOnly(g: Grammar, w: seq<nat>) {
    forall i :: 0 <= i < |w| ==> 0 < w[i] < g.nterminal
  }

  /** Tokens and the end of input. */
  predicate InputOk(g: Grammar, input: seq<nat>) {
    forall i :: 0 <= i < |input| ==> input[i] < g.nterminal
  }

  /** The tree is a derivation of `w` from the start symbol. */
  ghost predicate IsParse(g: Grammar, t: Tree, w: seq<nat>) {
    t.Branch? && ValidTree(g, t) && Root(g, t) == g.start && Yield(t) == w
  }

  ghost predicate Sentence(g: Grammar, w: seq<nat>) {
    TokensOnly(g, w) && exists t :: IsParse(g, t, w)
  }

  lemma {:induction false} YieldsAppend(a: seq<Tree>, b: seq<Tree>)
    ensures Yields(a + b) == Yields(a) + Yields(b)
  {
    if a == [] {
      assert a + b == b;
    } else {
      assert (a + b)[1..] == a[1..] + b;
      YieldsAppend(a[1..], b);
    }
  }

  lemma YieldsOne(t: Tree)
    ensures Yields([t]) == Yield(t)
  {
    assert [t][1..] == [];
  }

  lemma NodeChildren(g: Grammar, v: Tree)
    requires v.Branch? && ValidTree(g, v)
    ensures v.rule < |g.rules| && ValidForest(g, v.children) && Roots(g, v.children) == g.rules[v.rule].rhs
  {
  }
}
