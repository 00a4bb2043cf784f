/** Why soundness needs rules of fewer than 256 symbols: for the grammar with the one
    rule s ::= X X ... X of n symbols, the generated parser is sound exactly if n is
    less than 256. Beyond that, the reduce pops too little and finds no goto. And for any
    grammar, an exact parser is possible only if no sentence uses a longer rule. */
module LongRule {
  import opened Options
  import opened Grammars
  import opened FirstSets
  import opened Automata
  import opened ActionLists
  import opened Champions
  import opened Driver
  import opened Soundness
  import opened Completeness
  import opened Prefix
  import opened Generator

  const X: nat := 1
  const S: nat := 2

  function Xs(n: nat): (xs: seq<nat>)
    ensures |xs| == n
  {
    seq(n, _ => X)
  }

  /** s ::= X X ... X, with n symbols. */
  function Long(n: nat): Grammar {
    Grammar(2, [Symbol(-1, UNK), Symbol(-1, UNK), Symbol(-1, UNK)], [Rule(S, Xs(n), None)], S)
  }

  lemma LongOk(n: nat)
    ensures Long(n).WellFormed() && Long(n).StartNotOnRhs() && (Long(n).RhsFits() <==> n < 256)
  {
    assert Long(n).rules[0].rhs == Xs(n);
  }

  /** Its only sentence. */
  lemma LongSentence(n: nat)
    ensures IsParse(Long(n), Branch(0, Leaves(Xs(n))), Xs(n)) && TokensOnly(Long(n), Xs(n))
  {
    var ch := Leaves(Xs(n));
    LongOk(n);
    LeavesYield(Xs(n));
    assert Roots(Long(n), ch) == Xs(n);
  }

  // ---------------------------------------------------------------------------
  // The automaton is a chain

  /** The state after k tokens. */
  function After(b: Automaton, k: nat): nat { Walk(b, 0, Xs(k)) }

  lemma AfterNext(b: Automaton, k: nat)
    ensures var s := After(b, k); After(b, k + 1) == if s < |b| && X in b[s].trans then b[s].trans[X] else |b|
  {
    assert Xs(k + 1) == Xs(k) + [X];
    WalkAppend(b, 0, Xs(k), X);
  }

  ghost predicate At(b: Automaton, n: nat, k: nat) {
    && After(b, k) < |b| && b[After(b, k)].items == {Item(0, k)}
    && (forall x :: x in b[After(b, k)].trans <==> x == X && k < n)
  }

  lemma NoCalls(n: nat, it: Item, r: nat)
    ensures !Calls(Long(n), it, r)
  {
  }

  lemma ClosureOfOne(n: nat, items: set<Item>, k: nat)
    requires IsClosure(Long(n), {Item(0, k)}, items)
    ensures items == {Item(0, k)}
  {
    forall it, r: nat ensures !Calls(Long(n), it, r) {
      NoCalls(n, it, r);
    }
    assert ItemsClosed(Long(n), {Item(0, k)});
  }

  lemma TransOfOne(n: nat, b: Automaton, s: nat, k: nat)
    requires s < |b| && StateOk(Long(n), b, s) && b[s].items == {Item(0, k)}
    ensures forall x :: x in b[s].trans <==> x == X && k < n
    ensures k < n ==> b[s].trans[X] < |b| && b[b[s].trans[X]].basis == {Item(0, k + 1)}
  {
    var it := Item(0, k);
    assert CanShift(Long(n), it) <==> k < n;
    if k < n {
      assert Next(Long(n), it) == X;
      assert GotoBasis(Long(n), {it}, X) == {Item(0, k + 1)};
    }
  }

  lemma {:induction false} ChainState(n: nat, b: Automaton, k: nat)
    requires IsAutomaton(Long(n), b) && k <= n
    ensures At(b, n, k)
  {
    var s := After(b, k);
    if k == 0 {
      assert StartItems(Long(n)) == {Item(0, 0)} by {
        assert Long(n).rules[0].lhs == S;
        forall it ensures it in StartItems(Long(n)) <==> it == Item(0, 0) {
        }
      }
    } else {
      ChainState(n, b, k - 1);
      assert StateOk(Long(n), b, After(b, k - 1));
      TransOfOne(n, b, After(b, k - 1), k - 1);
      AfterNext(b, k - 1);
    }
    assert StateOk(Long(n), b, s);
    ClosureOfOne(n, b[s].items, k);
    TransOfOne(n, b, s, k);
  }

  /** The end token reaches the end of the rule. */
  lemma {:induction false} EndReaches(n: nat, first: seq<set<nat>>, b: Automaton, l: Lookaheads, k: nat)
    requires IsAutomaton(Long(n), b) && LookClosed(Long(n), ExplicitEmpty(Long(n)), first, b, l) && k <= n
    ensures 0 in LookAt(l, After(b, k), Item(0, k))
  {
    if k == 0 {
      assert Long(n).rules[0].lhs == S;
      assert Item(0, 0) in StartItems(Long(n));
    } else {
      EndReaches(n, first, b, l, k - 1);
      ChainState(n, b, k - 1);
      var s, it := After(b, k - 1), Item(0, k - 1);
      assert CanShift(Long(n), it) && Next(Long(n), it) == X;
      AfterNext(b, k - 1);
      assert LookAt(l, s, it) <= LookAt(l, b[s].trans[X], Advance(it));
    }
  }

  // ---------------------------------------------------------------------------
  // What the tables say

  /** Shifts all along, then the reduce, and no goto but in the first state. */
  ghost predicate Chain(n: nat, b: Automaton, t: Tables) {
    && t.nstate == |b| && t.nrule == 1 && t.ruleInfo == [(S, n % 256)]
    && (forall k :: 0 <= k <= n ==> After(b, k) < |b|)
    && (forall k :: 0 <= k < n ==> FindShiftAction(t, After(b, k), X) == Some(After(b, k + 1)))
    && FindShiftAction(t, After(b, n), 0) == Some(|b|)
    && (forall k :: 0 < k <= n ==> FindReduceAction(t, After(b, k), S) == None)
  }

  lemma ChainShift(n: nat, first: seq<set<nat>>, b: Automaton, l: Lookaheads, t: Tables, k: nat)
    requires Delivered(Long(n), first, b, l, t) && k < n
    ensures FindShiftAction(t, After(b, k), X) == Some(After(b, k + 1))
  {
    hide TablesFor, GotosOnly, IsLook, IsAutomaton, FindShiftAction;
    ChainState(n, b, k);
    AfterNext(b, k);
    assert !Reduces(Long(n), b, l, After(b, k), CompleteItem(Long(n), 0), X);
    assert Champion(Long(n), b, l, After(b, k), X, 1) == Champion(Long(n), b, l, After(b, k), X, 0);
  }

  lemma ChainReduce(n: nat, first: seq<set<nat>>, b: Automaton, l: Lookaheads, t: Tables)
    requires Delivered(Long(n), first, b, l, t)
    ensures FindShiftAction(t, After(b, n), 0) == Some(t.nstate)
  {
    hide TablesFor, GotosOnly, IsAutomaton, FindShiftAction;
    ChainState(n, b, n);
    EndReaches(n, first, b, l, n);
    assert Reduces(Long(n), b, l, After(b, n), CompleteItem(Long(n), 0), 0);
    assert Champion(Long(n), b, l, After(b, n), 0, 0) == None;
    assert Champion(Long(n), b, l, After(b, n), 0, 1) == Some(Action(0, REDUCE, 0));
  }

  lemma ChainGoto(n: nat, first: seq<set<nat>>, b: Automaton, l: Lookaheads, t: Tables, k: nat)
    requires Delivered(Long(n), first, b, l, t) && 0 < k <= n
    ensures FindReduceAction(t, After(b, k), S) == None
  {
    hide TablesFor, TablesChoose, IsLook, IsAutomaton, FindReduceAction;
    ChainState(n, b, k);
    ChainState(n, b, 0);
    assert Item(0, k) != Item(0, 0) && After(b, k) != 0;
  }

  lemma IsChain(n: nat, first: seq<set<nat>>, b: Automaton, l: Lookaheads, t: Tables)
    requires Delivered(Long(n), first, b, l, t)
    ensures Chain(n, b, t)
  {
    hide TablesChoose, GotosOnly, IsLook, IsAutomaton, FindShiftAction, FindReduceAction, TokenActionOk, GotosOk, After,
         At;
    forall k | 0 <= k <= n ensures After(b, k) < |b| {
      ChainState(n, b, k);
      assert At(b, n, k);
      InRange(n, b, k);
    }
    forall k | 0 <= k < n ensures FindShiftAction(t, After(b, k), X) == Some(After(b, k + 1)) {
      ChainShift(n, first, b, l, t, k);
    }
    ChainReduce(n, first, b, l, t);
    forall k | 0 < k <= n ensures FindReduceAction(t, After(b, k), S) == None {
      ChainGoto(n, first, b, l, t, k);
    }
    assert t.ruleInfo == [t.ruleInfo[0]];
  }

  lemma InRange(n: nat, b: Automaton, k: nat)
    requires At(b, n, k)
    ensures After(b, k) < |b|
  {
  }

  // ---------------------------------------------------------------------------
  // The run

  ghost function StackUpto(b: Automaton, k: nat): (s: seq<Entry>)
    ensures |s| == k + 1
  {
    if k == 0 then [Entry(0, 0, Leaf(0))] else StackUpto(b, k - 1) + [Entry(After(b, k), X, Leaf(X))]
  }

  lemma {:induction false} StackAt(b: Automaton, k: nat, i: nat)
    requires i <= k
    ensures StackUpto(b, k)[i].stateno == After(b, i)
  {
    if i < k { StackAt(b, k - 1, i); }
  }

  ghost function ShiftedUpto(b: Automaton, k: nat): Parser { Parser(StackUpto(b, k), -1 - k, [], k, 0, 0) }

  lemma {:induction false} ShiftAll(n: nat, b: Automaton, t: Tables, depth: nat, k: nat)
    requires Chain(n, b, t) && k <= n < depth
    ensures Run(t, depth, Xs(n) + [0], BegunParser, k) == Some(ShiftedUpto(b, k))
  {
    hide FindShiftAction, FindReduceAction, Run;
    if k == 0 {
      assert Run(t, depth, Xs(n) + [0], BegunParser, 0) == Some(BegunParser)
        by { RunZero(t, depth, Xs(n) + [0], BegunParser); }
    } else {
      ShiftAll(n, b, t, depth, k - 1);
      RunAppend(t, depth, Xs(n) + [0], BegunParser, k - 1, 1);
      OneShift(n, b, t, depth, k - 1);
    }
  }

  lemma RunZero(t: Tables, depth: nat, input: seq<nat>, p: Parser)
    ensures Run(t, depth, input, p, 0) == Some(p)
  {
  }

  lemma OneShift(n: nat, b: Automaton, t: Tables, depth: nat, k: nat)
    requires Chain(n, b, t) && k < n < depth
    ensures Run(t, depth, Xs(n) + [0], ShiftedUpto(b, k), 1) == Some(ShiftedUpto(b, k + 1))
  {
    hide FindShiftAction, FindReduceAction, After;
    var p := ShiftedUpto(b, k);
    StackAt(b, k, k);
    assert Run(t, depth, Xs(n) + [0], p, 1) == Step(t, depth, Xs(n) + [0], p);
  }

  /** The reduce fails an assertion. */
  lemma ReduceFails(n: nat, b: Automaton, t: Tables, depth: nat)
    requires Chain(n, b, t) && 256 <= n < depth
    ensures Run(t, depth, Xs(n) + [0], ShiftedUpto(b, n), 1) == None
  {
    hide FindShiftAction, FindReduceAction, After, StackUpto;
    var p := ShiftedUpto(b, n);
    StackAt(b, n, n);
    StackAt(b, n, n - n % 256);
    assert Reduce(t, depth, p, 0) == None;
    assert Step(t, depth, Xs(n) + [0], p) == None;
  }

  /** So the run on the sentence ends with a failed assertion. */
  lemma RunFails(n: nat, b: Automaton, t: Tables, depth: nat)
    requires Chain(n, b, t) && 256 <= n < depth
    ensures Run(t, depth, Xs(n) + [0], FreshParser, n + 1) == None
  {
    hide Chain, Run, StackUpto;
    ShiftAll(n, b, t, depth, n);
    RunAppend(t, depth, Xs(n) + [0], BegunParser, n, 1);
    ReduceFails(n, b, t, depth);
    RunInitialised(t, depth, Xs(n) + [0], FreshParser, n + 1);
  }

  lemma FailedNotSound(n: nat, t: Tables)
    requires Run(t, n + 1, Xs(n) + [0], FreshParser, n + 1) == None
    ensures !SoundParser(Long(n), t)
  {
    hide Run;
    assert InputOk(Long(n), Xs(n) + [0]);
    assert SoundParser(Long(n), t) ==> RunOnlyAcceptsSentences(Long(n), t, n + 1, Xs(n) + [0], n + 1);
  }

  ghost predicate FailsOnSentence(t: Tables, n: nat, depth: nat) {
    Run(t, depth, Xs(n) + [0], FreshParser, n + 1) == None
  }

  /** What is generated for the grammar, with or without default reductions, is sound
      exactly if its rule is short enough; if not, its only sentence fails an
      assertion of the driver at every stack depth that can hold it. */
  method GenerateLong(n: nat, compress: bool) returns (t: Tables)
    ensures SoundParser(Long(n), t) <==> n < 256
    ensures n >= 256 ==> Sentence(Long(n), Xs(n)) && forall depth: nat :: n < depth ==> FailsOnSentence(t, n, depth)
  {
    hide Delivered, SoundParser, Chain, IsLalr, ConflictFree, IsParse, ValidTree;
    LongOk(n);
    LongSentence(n);
    var nconflict, clean;
    ghost var first, a, look, b, l;
    t, nconflict, clean, first, a, look, b, l := Generate(Long(n), compress);
    if n >= 256 {
      IsChain(n, first, b, l, t);
      forall depth: nat | n < depth ensures FailsOnSentence(t, n, depth) {
        RunFails(n, b, t, depth);
      }
      assert FailsOnSentence(t, n, n + 1);
      FailedNotSound(n, t);
    }
  }

  // ---------------------------------------------------------------------------
  // Any grammar

  /** Every node has as many children as the tables say its rule has symbols. */
  ghost predicate AsCounted(t: Tables, tree: Tree)
    decreases tree
  {
    tree.Branch? ==> && tree.rule < |t.ruleInfo| && |tree.children| == t.ruleInfo[tree.rule].1
                     && forall i :: 0 <= i < |tree.children| ==> AsCounted(t, tree.children[i])
  }

  ghost predicate AllAsCounted(t: Tables, p: Parser) {
    && (forall i :: 0 <= i < |p.stack| ==> AsCounted(t, p.stack[i].minor))
    && (forall i :: 0 <= i < |p.log| && p.log[i].Accept? ==> AsCounted(t, p.log[i].tree))
  }

  lemma ReduceCounts(t: Tables, depth: nat, p: Parser, r: nat)
    requires AllAsCounted(t, p) && Reduce(t, depth, p, r).Some?
    ensures AllAsCounted(t, Reduce(t, depth, p, r).value)
  {
    hide FindReduceAction;
    var base := |p.stack| - t.ruleInfo[r].1;
    var ch := Minors(p.stack[base..]);
    assert forall i :: 0 <= i < |ch| ==> ch[i] == p.stack[base + i].minor;
    assert AsCounted(t, Branch(r, ch));
  }

  lemma StepCounts(t: Tables, depth: nat, input: seq<nat>, p: Parser)
    requires AllAsCounted(t, p) && Step(t, depth, input, p).Some?
    ensures AllAsCounted(t, Step(t, depth, input, p).value)
  {
    hide FindShiftAction, Reduce;
    if p.pos < |input| {
      var q := Initialised(p);
      assert AllAsCounted(t, q);
      var found := FindShiftAction(t, q.stack[|q.stack| - 1].stateno, input[p.pos]).value;
      if t.nstate <= found < t.nstate + t.nrule {
        ReduceCounts(t, depth, q, found - t.nstate);
      }
    }
  }

  /** Whatever the tables, a run builds only such nodes. */
  lemma {:induction false} RunCounts(t: Tables, depth: nat, input: seq<nat>, p: Parser, n: nat)
    requires AllAsCounted(t, p) && Run(t, depth, input, p, n).Some?
    ensures AllAsCounted(t, Run(t, depth, input, p, n).value)
    decreases n
  {
    hide AllAsCounted, Step;
    if n > 0 {
      StepCounts(t, depth, input, p);
      RunCounts(t, depth, input, Step(t, depth, input, p).value, n - 1);
    }
  }

  /** The rule is applied somewhere in the tree. */
  ghost predicate Uses(tree: Tree, r: nat)
    decreases tree
  {
    tree.Branch? && (tree.rule == r || exists i :: 0 <= i < |tree.children| && Uses(tree.children[i], r))
  }

  /** `nrhs` is the length of the right-hand side, cut off to a byte. */
  ghost predicate CountsCut(g: Grammar, t: Tables) {
    |t.ruleInfo| == |g.rules| && forall r :: 0 <= r < |g.rules| ==> t.ruleInfo[r].1 == |g.rules[r].rhs| % 256
  }

  lemma {:induction false} CountedIsShort(g: Grammar, t: Tables, tree: Tree, r: nat)
    requires CountsCut(g, t) && ValidTree(g, tree) && AsCounted(t, tree) && Uses(tree, r)
    ensures r < |g.rules| && |g.rules[r].rhs| < 256
    decreases tree
  {
    assert |Roots(g, tree.children)| == |tree.children|;
    if tree.rule != r {
      var i :| 0 <= i < |tree.children| && Uses(tree.children[i], r);
      CountedIsShort(g, t, tree.children[i], r);
    }
  }

  /** An exact parser is possible only for sentences whose rules are short enough. */
  lemma ExactIsShort(g: Grammar, t: Tables, w: seq<nat>, tree: Tree, r: nat)
    requires CountsCut(g, t) && ExactParser(g, t) && TokensOnly(g, w) && IsParse(g, tree, w) && Uses(tree, r)
    ensures r < |g.rules| && |g.rules[r].rhs| < 256
  {
    hide Run, StackNeed, Uses, ValidTree, Yield, CountsCut;
    var depth := StackNeed(tree) + 1;
    assert ParsesExactly(g, t, depth, w, tree);
    var n :| AcceptsWith(t, depth, w, tree, n);
    RunCounts(t, depth, w + [0], FreshParser, n);
    var log := Run(t, depth, w + [0], FreshParser, n).value.log;
    assert log[0] == Accept(tree, 0, |w|, 0);
    CountedIsShort(g, t, tree, r);
  }

  ghost predicate InSentence(g: Grammar, r: nat) {
    exists w, tree :: TokensOnly(g, w) && IsParse(g, tree, w) && Uses(tree, r)
  }

  lemma ExactRulesFit(g: Grammar, t: Tables)
    requires CountsCut(g, t) && ExactParser(g, t) && forall r :: 0 <= r < |g.rules| ==> InSentence(g, r)
    ensures g.RhsFits()
  {
    hide ExactParser, CountsCut, IsParse, Uses;
    forall r | 0 <= r < |g.rules| ensures |g.rules[r].rhs| < 256 {
      assert InSentence(g, r);
      var w, tree :| TokensOnly(g, w) && IsParse(g, tree, w) && Uses(tree, r);
      ExactIsShort(g, t, w, tree, r);
    }
  }

  lemma DeliveredCounts(g: Grammar, first: seq<set<nat>>, b: Automaton, l: Lookaheads, t: Tables)
    requires Delivered(g, first, b, l, t)
    ensures CountsCut(g, t)
  {
    hide IsLook, IsAutomaton, TablesChoose, DefaultsAnswer, GotosOnly, Generated, AllReached, TokenActionOk, GotosOk;
  }

  /** For a grammar without conflicts and without hidden empty rules, each of whose rules
      is used in some sentence: the parser is exact if and only if all rules are short
      enough. */
  method GenerateUsed(g: Grammar, compress: bool) returns (t: Tables, clean: bool, ghost first: seq<set<nat>>,
                                                         ghost a: Automaton, ghost look: Lookaheads)
    requires g.WellFormed() && g.StartNotOnRhs() && ScansComplete(g)
    requires forall r :: 0 <= r < |g.rules| ==> InSentence(g, r)
    ensures IsLalr(g, first, a, look) && (clean <==> ConflictFree(g, a, look))
    ensures clean ==> (ExactParser(g, t) <==> g.RhsFits())
  {
    hide *;
    var n;
    ghost var b, l;
    t, n, clean, first, a, look, b, l := Generate(g, compress);
    DeliveredCounts(g, first, b, l, t);
    if clean && ExactParser(g, t) {
      ExactRulesFit(g, t);
    }
  }
}
