/** A parser generated without conflicts accepts every sentence with exactly its
    parse tree, as long as its stack is deep enough, and overflows if it is not. */
module Completeness {
  import opened Options
  import opened Grammars
  import opened FirstSets
  import opened Automata
  import opened Driver
  import opened Soundness

  /** The tables hold every candidate action. */
  ghost predicate TablesComplete(g: Grammar, a: Automaton, look: Lookaheads, t: Tables) {
    && (forall s, tok :: 0 <= s < |a| && 0 <= tok < g.nterminal && tok in a[s].trans ==>
                           FindShiftAction(t, s, tok) == Some(a[s].trans[tok]))
    && (forall s: nat, it, tok: nat :: Reduces(g, a, look, s, it, tok) && tok < g.nterminal ==>
                               FindShiftAction(t, s, tok) == Some(t.nstate + it.rule))
  }

  /** What a rule is followed by, if a sequence of trees stands for what comes after
      its nonterminal. */
  ghost predicate RealLocal(look: Lookaheads, s: nat, it: Item, r: nat, ts: seq<Tree>) {
    if Yields(ts) == [] then LookAt(look, s, it) <= LookAt(look, s, Item(r, 0))
    else LookAt(look, s, it) != {} ==> Yields(ts)[0] in LookAt(look, s, Item(r, 0))
  }

  /** The trees stand for what comes after the next symbol of an item. */
  ghost predicate Continues(g: Grammar, it: Item, ts: seq<Tree>) {
    CanShift(g, it) && ValidForest(g, ts) && Roots(g, ts) == Rest(g, it) && InputOk(g, Yields(ts))
  }

  /** Some token string is derived by way of the rule. */
  ghost predicate Fruitful(g: Grammar, r: nat) {
    exists u :: ValidTree(g, u) && u.Branch? && u.rule == r && InputOk(g, Yield(u))
  }

  /** The lookahead sets hold whatever can follow in a sentence; no FIRST sets or lambda
      flags are mentioned. */
  ghost predicate RealClosed(g: Grammar, a: Automaton, look: Lookaheads) {
    && |look| == |a|
    && (forall it :: it in StartItems(g) && Fruitful(g, it.rule) ==> 0 in LookAt(look, 0, it))
    && (forall s, it, r, ts ::
          0 <= s < |a| && it in a[s].items && Calls(g, it, r) && Fruitful(g, r) && Continues(g, it, ts) ==>
            RealLocal(look, s, it, r, ts))
    && (forall s, it :: 0 <= s < |a| && it in a[s].items && CanShift(g, it) && Next(g, it) in a[s].trans ==>
                          LookAt(look, s, it) <= LookAt(look, a[s].trans[Next(g, it)], Advance(it)))
  }

  /** The sets LEMON computes do, if its scans see all nullable symbols. */
  lemma ScansAreReal(g: Grammar, first: seq<set<nat>>, a: Automaton, look: Lookaheads)
    requires g.WellFormed() && FamilyOk(g, first) && FirstClosed(g, ExplicitEmpty(g), first) && ScansComplete(g)
    requires IsAutomaton(g, a) && LookClosed(g, ExplicitEmpty(g), first, a, look)
    ensures RealClosed(g, a, look)
  {
    hide ValidTree, IsAutomaton, FirstClosed, ScanOk, Nullable, ExplicitEmpty;
    forall s, it, r, ts | 0 <= s < |a| && it in a[s].items && Calls(g, it, r) && Continues(g, it, ts)
      ensures RealLocal(look, s, it, r, ts)
    {
      assert LookLocal(g, ExplicitEmpty(g), first, look, s, it, r);
      SuffixScans(g, a, s, it);
      ScanFindsFirst(g, ExplicitEmpty(g), first, ts);
    }
  }

  lemma SuffixScans(g: Grammar, a: Automaton, s: nat, it: Item)
    requires g.WellFormed() && ScansComplete(g) && IsAutomaton(g, a) && s < |a| && it in a[s].items
    requires CanShift(g, it) && !g.IsTerminal(Next(g, it))
    ensures ScanOk(g, ExplicitEmpty(g), Rest(g, it))
  {
    hide ScanOk;
    assert StateOk(g, a, s);
  }

  /** The part of `Generated` that does not depend on lookahead sets. */
  ghost predicate Frame(g: Grammar, a: Automaton, t: Tables) {
    && g.WellFormed() && g.StartNotOnRhs() && g.RhsFits() && IsAutomaton(g, a)
    && t.nstate == |a| && t.nrule == |g.rules| == |t.ruleInfo|
    && (forall r :: 0 <= r < |g.rules| ==> t.ruleInfo[r] == (g.rules[r].lhs, |g.rules[r].rhs|))
    && GotosOk(g, a, t)
  }

  lemma GeneratedFrame(g: Grammar, a: Automaton, look: Lookaheads, t: Tables)
    requires Generated(g, a, look, t)
    ensures Frame(g, a, t)
  {
    hide IsAutomaton, GotosOk, TokenActionOk;
  }

  ghost predicate Complete(g: Grammar, a: Automaton, look: Lookaheads, t: Tables) {
    Frame(g, a, t) && RealClosed(g, a, look) && TablesComplete(g, a, look, t)
  }

  lemma CompleteFacts(g: Grammar, a: Automaton, look: Lookaheads, t: Tables)
    requires Complete(g, a, look, t)
    ensures Frame(g, a, t) && RealClosed(g, a, look) && TablesComplete(g, a, look, t)
    ensures g.WellFormed() && g.StartNotOnRhs() && IsAutomaton(g, a)
  {
    hide IsAutomaton, RealClosed, TablesComplete, GotosOk;
  }

  // ---------------------------------------------------------------------------
  // Stack space

  function Max(a: nat, b: nat): nat { if a < b then b else a }

  /** How many stack slots parsing a tree takes at its worst moment. */
  function Need(t: Tree): nat
    decreases t, 1
  {
    match t
    case Leaf(_) => 1
    case Branch(_, ch) => Max(1, NeedSeq(ch))
  }

  /** The same for siblings, each of which stays on the stack. */
  function NeedSeq(ts: seq<Tree>): nat
    decreases ts, 0
  {
    if ts == [] then 0 else Max(Need(ts[0]), 1 + NeedSeq(ts[1..]))
  }

  // ---------------------------------------------------------------------------
  // Single steps

  predicate Overflowed(p: Parser, q: Option<Parser>) {
    q.Some? && q.value.stack == [] && q.value.log == p.log + [StackOverflow]
  }

  function Top(p: Parser): nat
    requires p.stack != []
  {
    p.stack[|p.stack| - 1].stateno
  }

  /** The parser after `es` have been pushed and `k` tokens shifted. */
  function Pushed(p: Parser, es: seq<Entry>, k: nat): Parser {
    p.(stack := p.stack + es, errcnt := p.errcnt - k, pos := p.pos + k)
  }

  lemma ShiftStep(g: Grammar, a: Automaton, look: Lookaheads, t: Tables, depth: nat, input: seq<nat>, p: Parser,
                  tok: nat)
    requires Frame(g, a, t) && TablesComplete(g, a, look, t)
    requires p.stack != [] && Top(p) < |a| && p.pos < |input| && input[p.pos] == tok
    requires 0 < tok < g.nterminal && tok in a[Top(p)].trans
    ensures var q := Run(t, depth, input, p, 1);
            if |p.stack| < depth then q == Some(Pushed(p, [Entry(a[Top(p)].trans[tok], tok, Leaf(tok))], 1))
            else Overflowed(p, q)
  {
    assert StateOk(g, a, Top(p));
    assert FindShiftAction(t, Top(p), tok) == Some(a[Top(p)].trans[tok]);
    assert Run(t, depth, input, p, 1) == Step(t, depth, input, p);
  }

  lemma GotoThere(g: Grammar, a: Automaton, t: Tables, s: nat, r: nat)
    requires Frame(g, a, t) && s < |a| && r < |g.rules| && g.rules[r].lhs in a[s].trans
    ensures FindReduceAction(t, s, g.rules[r].lhs) == Some(a[s].trans[g.rules[r].lhs])
    ensures a[s].trans[g.rules[r].lhs] < |a|
  {
    assert g.RuleOk(g.rules[r]) && StateOk(g, a, s);
  }

  lemma ReduceStep(g: Grammar, a: Automaton, look: Lookaheads, t: Tables, depth: nat, input: seq<nat>, low: Parser,
                   p: Parser, es: seq<Entry>, r: nat)
    requires Frame(g, a, t) && TablesComplete(g, a, look, t)
    requires low.stack != [] && Top(low) < |a| && p.stack == low.stack + es && p.pos < |input|
    requires input[p.pos] < g.nterminal
    requires r < |g.rules| && |es| == |g.rules[r].rhs| && !g.IsStartRule(r) && g.rules[r].lhs in a[Top(low)].trans
    requires Reduces(g, a, look, Top(p), CompleteItem(g, r), input[p.pos])
    requires |low.stack| < depth
    ensures Run(t, depth, input, p, 1) ==
            Some(p.(stack := low.stack + [Entry(a[Top(low)].trans[g.rules[r].lhs], g.rules[r].lhs,
              Branch(r, Minors(es)))]))
  {
    hide Frame, TablesComplete, FindShiftAction, Reduce, Reduces, CompleteItem, Grammar.IsStartRule, Minors;
    ReduceFacts(g, a, look, t, Top(p), Top(low), input[p.pos], r);
    PopAndPush(t, depth, low, p, es, r, a[Top(low)].trans[g.rules[r].lhs]);
    assert Run(t, depth, input, p, 1) == Step(t, depth, input, p);
  }

  lemma PopAndPush(t: Tables, depth: nat, low: Parser, p: Parser, es: seq<Entry>, r: nat, next: nat)
    requires low.stack != [] && p.stack == low.stack + es && |low.stack| < depth
    requires r < |t.ruleInfo| && t.ruleInfo[r].1 == |es| && next < t.nstate
    requires FindReduceAction(t, Top(low), t.ruleInfo[r].0) == Some(next)
    ensures Reduce(t, depth, p, r) ==
            Some(p.(stack := low.stack + [Entry(next, t.ruleInfo[r].0, Branch(r, Minors(es)))]))
  {
    hide FindReduceAction, Minors;
    assert p.stack[..|low.stack|] == low.stack && p.stack[|low.stack|..] == es;
  }

  lemma ReduceFacts(g: Grammar, a: Automaton, look: Lookaheads, t: Tables, s: nat, low: nat, tok: nat, r: nat)
    requires Frame(g, a, t) && TablesComplete(g, a, look, t) && tok < g.nterminal
    requires low < |a| && r < |g.rules| && !g.IsStartRule(r) && g.rules[r].lhs in a[low].trans
    requires Reduces(g, a, look, s, CompleteItem(g, r), tok)
    ensures FindShiftAction(t, s, tok) == Some(t.nstate + r)
    ensures t.nrule == |g.rules| == |t.ruleInfo| && t.ruleInfo[r] == (g.rules[r].lhs, |g.rules[r].rhs|)
    ensures a[low].trans[g.rules[r].lhs] < t.nstate
    ensures FindReduceAction(t, low, g.rules[r].lhs) == Some(a[low].trans[g.rules[r].lhs])
  {
    GotoThere(g, a, t, low, r);
    assert StateOk(g, a, low);
  }

  /** Without room for it, the goto after an empty rule overflows. */
  lemma ReduceOverflow(g: Grammar, a: Automaton, look: Lookaheads, t: Tables, depth: nat, input: seq<nat>, p: Parser,
                       r: nat)
    requires Frame(g, a, t) && TablesComplete(g, a, look, t)
    requires p.stack != [] && Top(p) < |a| && p.pos < |input| && input[p.pos] < g.nterminal
    requires r < |g.rules| && g.rules[r].rhs == [] && !g.IsStartRule(r) && g.rules[r].lhs in a[Top(p)].trans
    requires Reduces(g, a, look, Top(p), CompleteItem(g, r), input[p.pos])
    requires |p.stack| >= depth
    ensures Overflowed(p, Run(t, depth, input, p, 1))
  {
    assert FindShiftAction(t, Top(p), input[p.pos]) == Some(t.nstate + r);
    assert t.ruleInfo[r] == (g.rules[r].lhs, 0);
    GotoThere(g, a, t, Top(p), r);
    assert Run(t, depth, input, p, 1) == Step(t, depth, input, p);
  }

  // ---------------------------------------------------------------------------
  // Lookaheads along a tree

  /** In front of a child that is a nonterminal, the token after the child is in
      the lookahead set of the child's rule. */
  lemma ChildLookahead(g: Grammar, a: Automaton, look: Lookaheads, s: nat, r: nat, d: nat, ch: seq<Tree>,
                       rest: seq<nat>)
    requires g.WellFormed() && IsAutomaton(g, a) && RealClosed(g, a, look)
    requires s < |a| && Item(r, d) in a[s].items && r < |g.rules|
    requires ValidForest(g, ch) && Roots(g, ch) == g.rules[r].rhs && d < |ch| && ch[d].Branch?
    requires rest != [] && rest[0] in LookAt(look, s, Item(r, d))
    requires InputOk(g, Yields(ch[d + 1..])) && InputOk(g, Yield(ch[d]))
    ensures Item(ch[d].rule, 0) in a[s].items
    ensures (Yields(ch[d + 1..]) + rest)[0] in LookAt(look, s, Item(ch[d].rule, 0))
  {
    hide ValidTree, IsAutomaton;
    CalledChild(g, a, s, r, d, ch);
    assert ValidTree(g, ch[d]) && Fruitful(g, ch[d].rule);
    assert RealLocal(look, s, Item(r, d), ch[d].rule, ch[d + 1..]);
  }

  lemma CalledChild(g: Grammar, a: Automaton, s: nat, r: nat, d: nat, ch: seq<Tree>)
    requires g.WellFormed() && IsAutomaton(g, a) && s < |a| && Item(r, d) in a[s].items && r < |g.rules|
    requires ValidForest(g, ch) && Roots(g, ch) == g.rules[r].rhs && d < |ch| && ch[d].Branch?
    requires InputOk(g, Yields(ch[d + 1..]))
    ensures var it, r' := Item(r, d), ch[d].rule;
            Calls(g, it, r') && Item(r', 0) in a[s].items && Continues(g, it, ch[d + 1..])
  {
    var it, r' := Item(r, d), ch[d].rule;
    assert ValidTree(g, ch[d]) && Roots(g, ch)[d] == Root(g, ch[d]);
    assert Calls(g, it, r') && StateOk(g, a, s) && g.RuleOk(g.rules[r']);
  }

  // ---------------------------------------------------------------------------
  // Parsing a tree

  ghost predicate Ready(g: Grammar, a: Automaton, look: Lookaheads, input: seq<nat>, p: Parser, it: Item, w: seq<nat>,
                        rest: seq<nat>) {
    && p.stack != [] && Top(p) < |a| && it in a[Top(p)].items
    && p.pos <= |input| && input[p.pos..] == w + rest
    && (forall i :: 0 <= i < |input| ==> input[i] < g.nterminal)
    && rest != [] && rest[0] in LookAt(look, Top(p), it)
  }

  /** Pushing the symbol after the dot moves the dot, and the lookahead with it. */
  lemma GotoReady(g: Grammar, a: Automaton, look: Lookaheads, input: seq<nat>, p: Parser, it: Item,
                  x: nat, e: Entry, v: seq<nat>, w: seq<nat>, rest: seq<nat>)
    requires IsAutomaton(g, a) && RealClosed(g, a, look)
    requires Ready(g, a, look, input, p, it, v + w, rest) && ShiftsOn(g, it, x)
    requires x in a[Top(p)].trans && e.stateno == a[Top(p)].trans[x]
    ensures Ready(g, a, look, input, Pushed(p, [e], |v|), Advance(it), w, rest)
  {
    var s := Top(p);
    assert StateOk(g, a, s);
    assert Advance(it) in GotoBasis(g, a[s].items, x);
    assert StateOk(g, a, e.stateno);
    assert input[p.pos..] == v + (w + rest);
    assert input[p.pos + |v|..] == input[p.pos..][|v|..] == w + rest;
  }

  /** From a state that holds the item r with its dot at d, the remaining
      children are parsed and pushed one after the other. */
  lemma {:induction false} ParseChildren(g: Grammar, a: Automaton, look: Lookaheads, t: Tables, depth: nat,
                                         input: seq<nat>, p: Parser, r: nat, d: nat, ch: seq<Tree>, rest: seq<nat>)
    returns (n: nat, es: seq<Entry>)
    requires Complete(g, a, look, t) && r < |g.rules| && |p.stack| <= depth
    requires ValidForest(g, ch) && Roots(g, ch) == g.rules[r].rhs && d <= |ch|
    requires Ready(g, a, look, input, p, Item(r, d), Yields(ch[d..]), rest)
    ensures if |p.stack| + NeedSeq(ch[d..]) <= depth then
              && Run(t, depth, input, p, n) == Some(Pushed(p, es, |Yields(ch[d..])|))
              && Minors(es) == ch[d..]
              && Ready(g, a, look, input, Pushed(p, es, |Yields(ch[d..])|), CompleteItem(g, r), [], rest)
            else Overflowed(p, Run(t, depth, input, p, n))
    decreases Sizes(ch[d..]), 2
  {
    hide Step, Complete;
    if d == |ch| {
      n, es := 0, [];
      assert Pushed(p, es, 0) == p by { assert p.stack + [] == p.stack; }
    } else {
      var tail := ch[d + 1..];
      assert ch[d..][1..] == tail;
      var m, e := ParseChild(g, a, look, t, depth, input, p, r, d, ch, rest);
      if |p.stack| + Need(ch[d]) <= depth {
        var q := Pushed(p, [e], |Yield(ch[d])|);
        var n', es' := ParseChildren(g, a, look, t, depth, input, q, r, d + 1, ch, rest);
        n, es := m + n', [e] + es';
        RunAppend(t, depth, input, p, m, n');
        if |p.stack| + NeedSeq(ch[d..]) <= depth {
          assert Pushed(q, es', |Yields(tail)|) == Pushed(p, es, |Yields(ch[d..])|) by {
            assert p.stack + ([e] + es') == (p.stack + [e]) + es';
          }
          assert Minors(es) == [ch[d]] + Minors(es');
        }
      } else {
        n, es := m, [];
      }
    }
  }

  /** One child: a token is shifted, a nonterminal is parsed and reduced. */
  lemma {:induction false} ParseChild(g: Grammar, a: Automaton, look: Lookaheads, t: Tables, depth: nat,
                                      input: seq<nat>, p: Parser, r: nat, d: nat, ch: seq<Tree>, rest: seq<nat>)
    returns (n: nat, e: Entry)
    requires Complete(g, a, look, t) && r < |g.rules| && |p.stack| <= depth
    requires ValidForest(g, ch) && Roots(g, ch) == g.rules[r].rhs && d < |ch|
    requires Ready(g, a, look, input, p, Item(r, d), Yield(ch[d]) + Yields(ch[d + 1..]), rest)
    ensures if |p.stack| + Need(ch[d]) <= depth then
              && Run(t, depth, input, p, n) == Some(Pushed(p, [e], |Yield(ch[d])|))
              && e.minor == ch[d]
              && Ready(g, a, look, input, Pushed(p, [e], |Yield(ch[d])|), Item(r, d + 1), Yields(ch[d + 1..]), rest)
            else Overflowed(p, Run(t, depth, input, p, n))
    decreases Size(ch[d]), 1
  {
    hide Complete, Frame, TablesComplete, RealClosed, IsAutomaton, Run, ValidTree;
    CompleteFacts(g, a, look, t);
    var x := Root(g, ch[d]);
    ChildShifts(g, a, Top(p), r, d, ch);
    if ch[d].Leaf? {
      assert input[p.pos] == input[p.pos..][0] == x;
      ShiftStep(g, a, look, t, depth, input, p, x);
      n, e := 1, Entry(a[Top(p)].trans[x], x, Leaf(x));
    } else {
      ChildReady(g, a, look, input, p, r, d, ch, rest);
      n, e := ParseNode(g, a, look, t, depth, input, p, ch[d].rule, ch[d].children, Yields(ch[d + 1..]) + rest);
    }
    if |p.stack| + Need(ch[d]) <= depth {
      GotoReady(g, a, look, input, p, Item(r, d), x, e, Yield(ch[d]), Yields(ch[d + 1..]), rest);
    }
  }

  lemma ChildShifts(g: Grammar, a: Automaton, s: nat, r: nat, d: nat, ch: seq<Tree>)
    requires g.WellFormed() && g.StartNotOnRhs() && IsAutomaton(g, a) && s < |a| && r < |g.rules|
    requires Item(r, d) in a[s].items
    requires ValidForest(g, ch) && Roots(g, ch) == g.rules[r].rhs && d < |ch|
    ensures var x := Root(g, ch[d]); ShiftsOn(g, Item(r, d), x) && x in a[s].trans && 0 < x
    ensures ch[d].Branch? ==> ValidTree(g, ch[d]) && !g.IsStartRule(ch[d].rule)
  {
    assert Roots(g, ch)[d] == Root(g, ch[d]) && StateOk(g, a, s) && g.RuleOk(g.rules[r]);
  }

  lemma ChildReady(g: Grammar, a: Automaton, look: Lookaheads, input: seq<nat>, p: Parser,
                   r: nat, d: nat, ch: seq<Tree>, rest: seq<nat>)
    requires g.WellFormed() && IsAutomaton(g, a) && r < |g.rules|
    requires RealClosed(g, a, look)
    requires ValidForest(g, ch) && Roots(g, ch) == g.rules[r].rhs && d < |ch| && ch[d].Branch?
    requires Ready(g, a, look, input, p, Item(r, d), Yield(ch[d]) + Yields(ch[d + 1..]), rest)
    ensures Ready(g, a, look, input, p, Item(ch[d].rule, 0), Yield(ch[d]), Yields(ch[d + 1..]) + rest)
  {
    var tail := Yields(ch[d + 1..]);
    assert input[p.pos..] == Yield(ch[d]) + (tail + rest);
    forall i | 0 <= i < |tail| ensures tail[i] < g.nterminal {
      assert tail[i] == input[p.pos..][|Yield(ch[d])| + i];
    }
    forall i | 0 <= i < |Yield(ch[d])| ensures Yield(ch[d])[i] < g.nterminal {
      assert Yield(ch[d])[i] == input[p.pos..][i];
    }
    ChildLookahead(g, a, look, Top(p), r, d, ch, rest);
  }

  lemma {:induction false} ParseNode(g: Grammar, a: Automaton, look: Lookaheads, t: Tables, depth: nat,
                                     input: seq<nat>, p: Parser, r: nat, ch: seq<Tree>, rest: seq<nat>)
    returns (n: nat, e: Entry)
    requires Complete(g, a, look, t) && |p.stack| <= depth
    requires ValidTree(g, Branch(r, ch)) && !g.IsStartRule(r)
    requires Ready(g, a, look, input, p, Item(r, 0), Yields(ch), rest) && g.rules[r].lhs in a[Top(p)].trans
    ensures if |p.stack| + Need(Branch(r, ch)) <= depth then
              && Run(t, depth, input, p, n) == Some(Pushed(p, [e], |Yields(ch)|))
              && e == Entry(a[Top(p)].trans[g.rules[r].lhs], g.rules[r].lhs, Branch(r, ch))
            else Overflowed(p, Run(t, depth, input, p, n))
    decreases Size(Branch(r, ch)), 0
  {
    hide Step;
    e := Entry(a[Top(p)].trans[g.rules[r].lhs], g.rules[r].lhs, Branch(r, ch));
    assert ch[0..] == ch;
    var m, es := ParseChildren(g, a, look, t, depth, input, p, r, 0, ch, rest);
    if |p.stack| + NeedSeq(ch) <= depth {
      n := m + 1;
      RunAppend(t, depth, input, p, m, 1);
      FinishNode(g, a, look, t, depth, input, p, es, r, ch, rest);
    } else {
      n := m;
    }
  }

  lemma FinishNode(g: Grammar, a: Automaton, look: Lookaheads, t: Tables, depth: nat,
                   input: seq<nat>, p: Parser, es: seq<Entry>, r: nat, ch: seq<Tree>, rest: seq<nat>)
    requires Frame(g, a, t) && TablesComplete(g, a, look, t)
    requires ValidTree(g, Branch(r, ch)) && !g.IsStartRule(r)
    requires p.stack != [] && Top(p) < |a| && g.rules[r].lhs in a[Top(p)].trans && Minors(es) == ch
    requires Ready(g, a, look, input, Pushed(p, es, |Yields(ch)|), CompleteItem(g, r), [], rest)
    requires |p.stack| + NeedSeq(ch) <= depth
    ensures var q := Run(t, depth, input, Pushed(p, es, |Yields(ch)|), 1);
            var e := Entry(a[Top(p)].trans[g.rules[r].lhs], g.rules[r].lhs, Branch(r, ch));
            if |p.stack| < depth then q == Some(Pushed(p, [e], |Yields(ch)|)) else Overflowed(p, q)
  {
    hide Frame, TablesComplete, Step;
    var q := Pushed(p, es, |Yields(ch)|);
    assert input[q.pos] == input[q.pos..][0] == rest[0];
    if |p.stack| < depth {
      ReduceStep(g, a, look, t, depth, input, p, q, es, r);
    } else {
      assert ch == [] && q.stack == p.stack;
      ReduceOverflow(g, a, look, t, depth, input, q, r);
    }
  }

  // ---------------------------------------------------------------------------
  // Whole runs

  function Accepted(p: Parser, tree: Tree): Parser {
    p.(stack := [], log := p.log + [Accept(tree, p.from, p.pos, p.discarded)], pos := p.pos + 1)
  }

  /** With a start rule's symbols on the stack, the end of input accepts. */
  lemma AcceptStep(g: Grammar, a: Automaton, look: Lookaheads, t: Tables, depth: nat, input: seq<nat>, p: Parser,
                   bottom: Entry, es: seq<Entry>, r: nat)
    requires Frame(g, a, t) && TablesComplete(g, a, look, t)
    requires p.stack == [bottom] + es && bottom.stateno == 0 && p.pos < |input| && input[p.pos] < g.nterminal
    requires g.IsStartRule(r) && |es| == |g.rules[r].rhs|
    requires Reduces(g, a, look, Top(p), CompleteItem(g, r), input[p.pos])
    ensures Run(t, depth, input, p, 1) == Some(Accepted(p, Branch(r, Minors(es))))
  {
    assert FindShiftAction(t, Top(p), input[p.pos]) == Some(t.nstate + r);
    assert t.ruleInfo[r] == (g.start, |es|);
    assert p.stack[1..] == es;
    assert Run(t, depth, input, p, 1) == Step(t, depth, input, p);
  }

  lemma RunInitialised(t: Tables, depth: nat, input: seq<nat>, p: Parser, n: nat)
    requires n > 0 && p.pos < |input|
    ensures Run(t, depth, input, p, n) == Run(t, depth, input, Initialised(p), n)
  {
    assert Initialised(Initialised(p)) == Initialised(p);
  }

  /** How many stack slots a whole parse takes: the start rule is never pushed. */
  function StackNeed(t: Tree): nat {
    1 + if t.Branch? then NeedSeq(t.children) else 0
  }

  ghost predicate AcceptsWith(t: Tables, depth: nat, w: seq<nat>, tree: Tree, n: nat) {
    var q := Run(t, depth, w + [0], FreshParser, n);
    q.Some? && q.value.pos == |w| + 1 && q.value.stack == [] && q.value.log == [Accept(tree, 0, |w|, 0)]
  }

  /** The start rules wait for `$` in the first state. */
  lemma StartReady(g: Grammar, a: Automaton, look: Lookaheads, t: Tables, r: nat)
    requires Complete(g, a, look, t) && g.IsStartRule(r) && Fruitful(g, r)
    ensures |a| > 0 && Item(r, 0) in a[0].items && 0 in LookAt(look, 0, Item(r, 0))
  {
    assert StateOk(g, a, 0);
    assert Item(r, 0) in StartItems(g);
  }

  lemma FinishStart(g: Grammar, a: Automaton, look: Lookaheads, t: Tables, depth: nat, input: seq<nat>,
                    p: Parser, bottom: Entry, es: seq<Entry>, r: nat)
    requires Complete(g, a, look, t) && g.IsStartRule(r) && |es| == |g.rules[r].rhs|
    requires p.stack == [bottom] + es && bottom.stateno == 0 && p.pos < |input| && input[p.pos] == 0
    requires Ready(g, a, look, input, p, CompleteItem(g, r), [], [0])
    ensures Run(t, depth, input, p, 1) == Some(Accepted(p, Branch(r, Minors(es))))
  {
    AcceptStep(g, a, look, t, depth, input, p, bottom, es, r);
  }

  const BegunParser := Parser([Entry(0, 0, Leaf(0))], -1, [], 0, 0, 0)

  lemma SentenceReady(g: Grammar, a: Automaton, look: Lookaheads, t: Tables, w: seq<nat>, tree: Tree)
    requires Complete(g, a, look, t) && IsParse(g, tree, w) && TokensOnly(g, w)
    ensures Ready(g, a, look, w + [0], BegunParser, Item(tree.rule, 0), Yields(tree.children[0..]), [0])
  {
    assert tree.children[0..] == tree.children;
    assert ValidTree(g, tree) && InputOk(g, Yield(tree));
    StartReady(g, a, look, t, tree.rule);
    assert (w + [0])[0..] == w + [0];
  }

  lemma BegunRun(g: Grammar, a: Automaton, look: Lookaheads, t: Tables, depth: nat, w: seq<nat>, tree: Tree)
    returns (n: nat, es: seq<Entry>)
    requires Complete(g, a, look, t) && depth > 0
    requires IsParse(g, tree, w) && TokensOnly(g, w)
    ensures if StackNeed(tree) <= depth
            then Run(t, depth, w + [0], BegunParser, n) == Some(Accepted(Pushed(BegunParser, es, |w|), tree))
            else Overflowed(BegunParser, Run(t, depth, w + [0], BegunParser, n))
  {
    hide Step, Complete;
    var r, ch, input := tree.rule, tree.children, w + [0];
    SentenceReady(g, a, look, t, w, tree);
    assert ch[0..] == ch;
    n, es := ParseChildren(g, a, look, t, depth, input, BegunParser, r, 0, ch, [0]);
    if StackNeed(tree) <= depth {
      FinishStart(g, a, look, t, depth, input, Pushed(BegunParser, es, |w|), BegunParser.stack[0], es, r);
      RunAppend(t, depth, input, BegunParser, n, 1);
      n := n + 1;
    }
  }

  /** Fed with a sentence and the end of input, the parser accepts with the
      sentence's tree, unless its stack is too small: then it overflows. */
  lemma SentenceRun(g: Grammar, a: Automaton, look: Lookaheads, t: Tables, depth: nat, w: seq<nat>, tree: Tree)
    returns (n: nat)
    requires Complete(g, a, look, t) && depth > 0
    requires IsParse(g, tree, w) && TokensOnly(g, w)
    ensures if StackNeed(tree) <= depth then AcceptsWith(t, depth, w, tree, n)
            else Overflowed(FreshParser, Run(t, depth, w + [0], FreshParser, n))
  {
    hide Step, Complete, ValidTree;
    var es;
    n, es := BegunRun(g, a, look, t, depth, w, tree);
    assert Run(t, depth, w + [0], BegunParser, 0) == Some(BegunParser);
    RunInitialised(t, depth, w + [0], FreshParser, n);
  }

  lemma IterateLogGrows(t: Tables, depth: nat, p: Parser, major: nat)
    requires p.stack != [] && !Iterate(t, depth, p, major).Abort?
    ensures p.log <= Iterate(t, depth, p, major).parser.log
  {
    hide FindShiftAction, FindReduceAction;
  }

  /** What user code has seen is never taken back. */
  lemma {:induction false} LogGrows(t: Tables, depth: nat, input: seq<nat>, p: Parser, n: nat)
    requires Run(t, depth, input, p, n).Some?
    ensures p.log <= Run(t, depth, input, p, n).value.log
    decreases n
  {
    hide Iterate;
    if n > 0 {
      if p.pos < |input| { IterateLogGrows(t, depth, Initialised(p), input[p.pos]); }
      LogGrows(t, depth, input, Step(t, depth, input, p).value, n - 1);
    }
  }

  /** Of two moments of a run, one has seen at least what the other has. */
  lemma LogsComparable(t: Tables, depth: nat, input: seq<nat>, p: Parser, m: nat, n: nat)
    requires Run(t, depth, input, p, m).Some? && Run(t, depth, input, p, n).Some?
    ensures var l, k := Run(t, depth, input, p, m).value.log, Run(t, depth, input, p, n).value.log; l <= k || k <= l
  {
    hide Step;
    if m <= n {
      RunAppend(t, depth, input, p, m, n - m);
      LogGrows(t, depth, input, Run(t, depth, input, p, m).value, n - m);
    } else {
      RunAppend(t, depth, input, p, n, m - n);
      LogGrows(t, depth, input, Run(t, depth, input, p, n).value, m - n);
    }
  }

  /** The parser accepts `w` with `tree` exactly when `tree` is a parse of `w` and
      the stack is deep enough for it. */
  lemma LanguageExact(g: Grammar, a: Automaton, l: Lookaheads, look: Lookaheads, t: Tables, depth: nat, w: seq<nat>,
                      tree: Tree)
    requires Generated(g, a, l, t) && Complete(g, a, look, t) && depth > 0 && TokensOnly(g, w)
    ensures (exists n :: AcceptsWith(t, depth, w, tree, n)) <==> IsParse(g, tree, w) && StackNeed(tree) <= depth
  {
    if n :| AcceptsWith(t, depth, w, tree, n) {
      AcceptedIsSentence(g, a, l, t, depth, w + [0], n, 0);
      assert (w + [0])[0..|w|] == w;
      var m := SentenceRun(g, a, look, t, depth, w, tree);
      LogsComparable(t, depth, w + [0], FreshParser, m, n);
    }
    if IsParse(g, tree, w) && StackNeed(tree) <= depth {
      var n := SentenceRun(g, a, look, t, depth, w, tree);
    }
  }

  /** A grammar from which tables without conflicts were generated has at most
      one parse tree for each sentence. */
  lemma Unambiguous(g: Grammar, a: Automaton, look: Lookaheads, t: Tables, w: seq<nat>, tree: Tree, tree': Tree)
    requires Complete(g, a, look, t) && TokensOnly(g, w)
    requires IsParse(g, tree, w) && IsParse(g, tree', w)
    ensures tree == tree'
  {
    var depth := StackNeed(tree) + StackNeed(tree');
    var n := SentenceRun(g, a, look, t, depth, w, tree);
    var n' := SentenceRun(g, a, look, t, depth, w, tree');
    LogsComparable(t, depth, w + [0], FreshParser, n, n');
    var log, log' := [Accept(tree, 0, |w|, 0)], [Accept(tree', 0, |w|, 0)];
    assert log[0] == log'[0];
  }
}
