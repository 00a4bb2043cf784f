/** Why every call of `Parse` ends for a grammar without conflicts and without hidden
    empty rules, whether or not its nonterminals are productive: a tree with a detour
    would make the parser go round in circles before a token that it is known to shift
    or accept. */
module NoDetours {
  import opened Options
  import opened Grammars
  import opened FirstSets
  import opened Automata
  import opened Driver
  import opened Soundness
  import opened Completeness
  import opened Generator
  import opened ParserObject
  import opened Termination

  // ---------------------------------------------------------------------------
  // The loop of one call, seen through the states on the stack

  /** One turn that does not consume the token; None if there is no such turn. */
  function NextStates(t: Tables, states: seq<nat>, tok: nat): Option<seq<nat>> {
    if states == [] then None
    else
      var f := FindShiftAction(t, states[|states| - 1], tok);
      if f.None? || f.value < t.nstate || f.value >= t.nstate + t.nrule then None
      else
        var r := f.value - t.nstate;
        if r >= |t.ruleInfo| || t.ruleInfo[r].1 >= |states| then None
        else
          var low := states[..|states| - t.ruleInfo[r].1];
          var act := FindReduceAction(t, low[|low| - 1], t.ruleInfo[r].0);
          if act.None? || act.value < 0 || act.value >= t.nstate then None else Some(low + [act.value])
  }

  function Rounds(t: Tables, states: seq<nat>, tok: nat, n: nat): Option<seq<nat>>
    decreases n
  {
    if n == 0 then Some(states)
    else
      var next := NextStates(t, states, tok);
      if next.None? then None else Rounds(t, next.value, tok, n - 1)
  }

  /** The loop is left at some time. */
  ghost predicate Ends(t: Tables, states: seq<nat>, tok: nat) {
    exists n :: Rounds(t, states, tok, n).None?
  }

  lemma {:induction false} RoundsAppend(t: Tables, states: seq<nat>, tok: nat, m: nat, n: nat)
    ensures var mid := Rounds(t, states, tok, m);
            Rounds(t, states, tok, m + n) == if mid.None? then None else Rounds(t, mid.value, tok, n)
    decreases m
  {
    hide NextStates;
    if m > 0 && NextStates(t, states, tok).Some? {
      RoundsAppend(t, NextStates(t, states, tok).value, tok, m - 1, n);
    }
  }

  lemma EndsBefore(t: Tables, states: seq<nat>, tok: nat, m: nat)
    requires Rounds(t, states, tok, m).Some? && Ends(t, Rounds(t, states, tok, m).value, tok)
    ensures Ends(t, states, tok)
  {
    hide Rounds;
    var n :| Rounds(t, Rounds(t, states, tok, m).value, tok, n).None?;
    RoundsAppend(t, states, tok, m, n);
  }

  lemma StopsHere(t: Tables, states: seq<nat>, tok: nat)
    requires NextStates(t, states, tok).None?
    ensures Ends(t, states, tok)
  {
    assert Rounds(t, states, tok, 1).None?;
  }

  /** A loop that comes back to where it was goes on for ever. */
  lemma {:induction false} LoopGoesOn(t: Tables, states: seq<nat>, tok: nat, d: nat, n: nat)
    requires d > 0 && Rounds(t, states, tok, d) == Some(states)
    ensures Rounds(t, states, tok, n).Some?
    decreases n
  {
    hide Rounds;
    if n < d {
      RoundsAppend(t, states, tok, n, d - n);
    } else {
      RoundsAppend(t, states, tok, d, n - d);
      LoopGoesOn(t, states, tok, d, n - d);
    }
  }

  function StatesOf(stack: seq<Entry>): (states: seq<nat>)
    ensures |states| == |stack|
  {
    seq(|stack|, i requires 0 <= i < |stack| => stack[i].stateno)
  }

  lemma StatesAppend(a: seq<Entry>, b: seq<Entry>)
    ensures StatesOf(a + b) == StatesOf(a) + StatesOf(b)
  {
  }

  lemma ReduceIsNext(t: Tables, depth: nat, p: Parser, r: nat)
    requires Reduce(t, depth, p, r).Some? && Reduce(t, depth, p, r).value.stack != []
    ensures r < |t.ruleInfo| && t.ruleInfo[r].1 < |p.stack|
    ensures var low := StatesOf(p.stack)[..|p.stack| - t.ruleInfo[r].1];
            var act := FindReduceAction(t, low[|low| - 1], t.ruleInfo[r].0);
            act.Some? && 0 <= act.value < t.nstate && StatesOf(Reduce(t, depth, p, r).value.stack) == low + [act.value]
  {
    hide FindReduceAction;
    var q, base := Reduce(t, depth, p, r).value, |p.stack| - t.ruleInfo[r].1;
    assert q.stack == p.stack[..base] + [q.stack[base]];
  }

  lemma StepReduces(t: Tables, depth: nat, input: seq<nat>, p: Parser) returns (r: nat)
    requires p.stack != [] && p.pos < |input| && Step(t, depth, input, p).Some?
    requires Step(t, depth, input, p).value.pos == p.pos
    ensures FindShiftAction(t, p.stack[|p.stack| - 1].stateno, input[p.pos]) == Some(t.nstate + r) && r < t.nrule
    ensures Step(t, depth, input, p) == Reduce(t, depth, p, r) && Reduce(t, depth, p, r).value.stack != []
  {
    PositionKept(t, depth, p, input[p.pos]);
    hide FindShiftAction, Reduce;
    r := FindShiftAction(t, p.stack[|p.stack| - 1].stateno, input[p.pos]).value - t.nstate;
  }

  lemma StepIsNext(t: Tables, depth: nat, input: seq<nat>, p: Parser)
    requires p.stack != [] && p.pos < |input| && Step(t, depth, input, p).Some?
    requires Step(t, depth, input, p).value.pos == p.pos
    ensures var q := Step(t, depth, input, p).value;
            q.stack != [] && NextStates(t, StatesOf(p.stack), input[p.pos]) == Some(StatesOf(q.stack))
  {
    hide FindShiftAction, FindReduceAction, Step, Reduce;
    var r := StepReduces(t, depth, input, p);
    ReduceIsNext(t, depth, p, r);
  }

  /** A stretch of a run within one call. */
  lemma {:induction false} RunIsRounds(t: Tables, depth: nat, input: seq<nat>, p: Parser, n: nat)
    requires p.stack != [] && p.pos < |input| && Run(t, depth, input, p, n).Some?
    requires Run(t, depth, input, p, n).value.pos == p.pos
    ensures Rounds(t, StatesOf(p.stack), input[p.pos], n) == Some(StatesOf(Run(t, depth, input, p, n).value.stack))
    decreases n
  {
    hide Step, NextStates;
    if n > 0 {
      var q := Step(t, depth, input, p).value;
      assert Run(t, depth, input, p, 1) == Some(q) by { assert Run(t, depth, input, q, 0) == Some(q); }
      PosGrows(t, depth, input, p, 1);
      PosGrows(t, depth, input, q, n - 1);
      StepIsNext(t, depth, input, p);
      RunIsRounds(t, depth, input, q, n - 1);
    }
  }

  // ---------------------------------------------------------------------------
  // Stacks along a path of symbols

  function Along(b: Automaton, xs: seq<nat>): (states: seq<nat>)
    ensures |states| == |xs| + 1
  {
    seq(|xs| + 1, i requires 0 <= i <= |xs| => Walk(b, 0, xs[..i]))
  }

  lemma AlongAppend(b: Automaton, xs: seq<nat>, ys: seq<nat>)
    ensures Along(b, xs + ys)[..|xs| + 1] == Along(b, xs)
    ensures Along(b, xs)[|xs|] == Walk(b, 0, xs)
    ensures |ys| == 1 ==> Along(b, xs + ys) == Along(b, xs) + [Walk(b, 0, xs + ys)]
  {
    assert xs[..|xs|] == xs && (xs + ys)[..|xs + ys|] == xs + ys;
    forall i | 0 <= i <= |xs| ensures Along(b, xs + ys)[i] == Along(b, xs)[i] {
      assert (xs + ys)[..i] == xs[..i];
    }
  }

  /** A parser that has come along the path and is waiting at the first token. */
  function Waiting(b: Automaton, xs: seq<nat>): (p: Parser)
    ensures p.stack != [] && StatesOf(p.stack) == Along(b, xs)
  {
    var stack := seq(|xs| + 1, i requires 0 <= i <= |xs| => Entry(Along(b, xs)[i], 0, Leaf(0)));
    assert StatesOf(stack) == Along(b, xs);
    Parser(stack, 0, [], 0, 0, 0)
  }

  lemma WaitingTop(b: Automaton, xs: seq<nat>)
    ensures Top(Waiting(b, xs)) == Walk(b, 0, xs) && |Waiting(b, xs).stack| == |xs| + 1
  {
    AlongAppend(b, xs, []);
    var p := Waiting(b, xs);
    assert StatesOf(p.stack)[|xs|] == p.stack[|xs|].stateno;
  }

  /** The grammar has no conflicts and no hidden empty rules. */
  ghost predicate Solid(g: Grammar, first: seq<set<nat>>, b: Automaton, l: Lookaheads, t: Tables) {
    && Complete(g, b, l, t) && ScansComplete(g) && AllReached(b)
    && IsFirst(g, ExplicitEmpty(g), first) && IsLook(g, ExplicitEmpty(g), first, b, l)
  }

  lemma SolidFacts(g: Grammar, first: seq<set<nat>>, b: Automaton, l: Lookaheads, t: Tables)
    requires Solid(g, first, b, l, t)
    ensures Complete(g, b, l, t) && g.WellFormed() && g.StartNotOnRhs() && IsAutomaton(g, b) && |b| == |l|
    ensures LookClosed(g, ExplicitEmpty(g), first, b, l) && ScansComplete(g)
    ensures FamilyOk(g, first) && FirstClosed(g, ExplicitEmpty(g), first)
  {
    hide IsAutomaton, ScansComplete, TablesComplete, RealClosed, FirstClosed, GotosOk, AllReached;
  }

  /** Parsing a node: before the token after it, the parser has the node's symbol on its
      stack. */
  lemma NodeRuns(g: Grammar, b: Automaton, l: Lookaheads, t: Tables, depth: nat, xs: seq<nat>, u: Tree, tok: nat)
    returns (n: nat, e: Entry)
    requires Complete(g, b, l, t) && u.Branch? && ValidTree(g, u) && !g.IsStartRule(u.rule) && TokensOnly(g, Yield(u))
    requires Walk(b, 0, xs) < |b| && Item(u.rule, 0) in b[Walk(b, 0, xs)].items && Root(g, u) in b[Walk(b, 0, xs)].trans
    requires tok < g.nterminal && tok in LookAt(l, Walk(b, 0, xs), Item(u.rule, 0))
    requires |xs| + 1 + Need(u) <= depth
    ensures Run(t, depth, Yield(u) + [tok], Waiting(b, xs), n) == Some(Pushed(Waiting(b, xs), [e], |Yield(u)|))
    ensures e.minor == u && StatesOf(Waiting(b, xs).stack + [e]) == Along(b, xs + [Root(g, u)])
  {
    hide Complete, Walk, Run, ValidTree, Along, Waiting, Need;
    var p, input := Waiting(b, xs), Yield(u) + [tok];
    NodeChildren(g, u);
    WaitingTop(b, xs);
    assert p.pos == 0 && input[0..] == Yield(u) + [tok] by { WaitingPos(b, xs); }
    assert Branch(u.rule, u.children) == u;
    n, e := ParseNode(g, b, l, t, depth, input, p, u.rule, u.children, [tok]);
    WalkAppend(b, 0, xs, Root(g, u));
    AlongAppend(b, xs, [Root(g, u)]);
    StatesAppend(p.stack, [e]);
  }

  lemma WaitingPos(b: Automaton, xs: seq<nat>)
    ensures Waiting(b, xs).pos == 0
  {
  }

  lemma EmptyNode(g: Grammar, b: Automaton, l: Lookaheads, t: Tables, xs: seq<nat>, u: Tree, tok: nat)
    returns (n: nat)
    requires Complete(g, b, l, t) && u.Branch? && ValidTree(g, u) && !g.IsStartRule(u.rule) && Yield(u) == []
    requires Walk(b, 0, xs) < |b| && Item(u.rule, 0) in b[Walk(b, 0, xs)].items && Root(g, u) in b[Walk(b, 0, xs)].trans
    requires tok < g.nterminal && tok in LookAt(l, Walk(b, 0, xs), Item(u.rule, 0))
    ensures Rounds(t, Along(b, xs), tok, n) == Some(Along(b, xs + [Root(g, u)]))
  {
    hide Complete, Walk, Run, ValidTree, Along, Waiting, Need, Rounds;
    var depth := |xs| + 1 + Need(u);
    var e;
    n, e := NodeRuns(g, b, l, t, depth, xs, u, tok);
    assert Yield(u) + [tok] == [tok];
    WaitingPos(b, xs);
    RunIsRounds(t, depth, [tok], Waiting(b, xs), n);
  }

  // ---------------------------------------------------------------------------
  // A token that can come next is shifted at some time

  lemma ShiftStops(g: Grammar, b: Automaton, l: Lookaheads, t: Tables, xs: seq<nat>, tok: nat)
    requires Complete(g, b, l, t) && Walk(b, 0, xs) < |b| && tok in b[Walk(b, 0, xs)].trans && tok < g.nterminal
    ensures Ends(t, Along(b, xs), tok)
  {
    hide FindShiftAction, FindReduceAction, RealClosed, Along, Walk, Ends;
    AlongAppend(b, xs, []);
    assert StateOk(g, b, Walk(b, 0, xs));
    StopsHere(t, Along(b, xs), tok);
  }

  /** The item calls for the rule of the first tree. */
  lemma FirstChild(g: Grammar, b: Automaton, s: nat, it: Item, ts: seq<Tree>)
    requires g.WellFormed() && g.StartNotOnRhs() && IsAutomaton(g, b) && s < |b| && it in b[s].items
    requires ts != [] && ValidForest(g, ts) && ItemOk(g, it) && Roots(g, ts) == g.rules[it.rule].rhs[it.dot..]
    ensures CanShift(g, it) && Next(g, it) == Root(g, ts[0]) && Rest(g, it) == Roots(g, ts[1..])
    ensures Next(g, it) in b[s].trans && b[s].trans[Next(g, it)] < |b|
    ensures Advance(it) in b[b[s].trans[Next(g, it)]].items && ItemOk(g, Advance(it))
    ensures g.rules[it.rule].rhs[it.dot + 1..] == Roots(g, ts[1..])
    ensures ts[0].Branch? ==>
            Calls(g, it, ts[0].rule) && Item(ts[0].rule, 0) in b[s].items && !g.IsStartRule(ts[0].rule)
    ensures ts[0].Branch? ==> ts[0].rule < |g.rules| && g.nterminal <= Root(g, ts[0])
  {
    assert StateOk(g, b, s);
    assert Roots(g, ts)[0] == Root(g, ts[0]) && Roots(g, ts)[1..] == Roots(g, ts[1..]);
    assert g.rules[it.rule].rhs[it.dot] == g.rules[it.rule].rhs[it.dot..][0];
    assert g.rules[it.rule].rhs[it.dot + 1..] == g.rules[it.rule].rhs[it.dot..][1..];
    var k := b[s].trans[Next(g, it)];
    assert Advance(it) in b[k].basis && StateOk(g, b, k);
    if ts[0].Branch? {
      assert ValidTree(g, ts[0]);
      assert g.RuleOk(g.rules[ts[0].rule]);
    }
  }

  /** Whatever the trees after it begin with is in the lookahead set of the first one. */
  lemma SeenAhead(g: Grammar, first: seq<set<nat>>, b: Automaton, l: Lookaheads, t: Tables, s: nat, it: Item,
                  r: nat, ts: seq<Tree>)
    requires Solid(g, first, b, l, t) && s < |b| && it in b[s].items && Calls(g, it, r) && ValidForest(g, ts)
    requires Rest(g, it) == Roots(g, ts) && Yields(ts) != [] && Yields(ts)[0] < g.nterminal
    ensures Yields(ts)[0] in LookAt(l, s, Item(r, 0))
  {
    hide Solid, Complete, IsAutomaton, ScansComplete, ValidTree, FirstClosed, Nullable, ExplicitEmpty, ScanOk;
    SolidFacts(g, first, b, l, t);
    assert g.RuleOk(g.rules[r]);
    SuffixScans(g, b, s, it);
    RuleScans(g);
    ScanFindsFirst(g, ExplicitEmpty(g), first, ts);
    assert LookLocal(g, ExplicitEmpty(g), first, l, s, it, r);
  }

  lemma RuleScans(g: Grammar)
    requires ScansComplete(g)
    ensures forall r :: 0 <= r < |g.rules| ==> ScanOk(g, ExplicitEmpty(g), g.rules[r].rhs)
  {
    hide ScanOk;
  }

  lemma {:induction false} ForestEnds(g: Grammar, first: seq<set<nat>>, b: Automaton, l: Lookaheads, t: Tables,
                                      xs: seq<nat>, it: Item, ts: seq<Tree>, tok: nat)
    requires Solid(g, first, b, l, t) && Walk(b, 0, xs) < |b| && it in b[Walk(b, 0, xs)].items && ItemOk(g, it)
    requires ValidForest(g, ts) && Roots(g, ts) == g.rules[it.rule].rhs[it.dot..]
    requires Yields(ts) != [] && Yields(ts)[0] == tok < g.nterminal
    ensures Ends(t, Along(b, xs), tok)
    decreases Sizes(ts)
  {
    hide Solid, Complete, IsAutomaton, ScansComplete, ValidTree, FirstClosed, LookClosed, Ends, Along, Walk, LookAt;
    SolidFacts(g, first, b, l, t);
    var s, u, rest := Walk(b, 0, xs), ts[0], ts[1..];
    FirstChild(g, b, s, it, ts);
    if u.Leaf? {
      ShiftStops(g, b, l, t, xs, tok);
    } else if Yield(u) == [] {
      SeenAhead(g, first, b, l, t, s, it, u.rule, rest);
      var n := EmptyNode(g, b, l, t, xs, u, tok);
      WalkAppend(b, 0, xs, Root(g, u));
      ForestEnds(g, first, b, l, t, xs + [Root(g, u)], Advance(it), rest, tok);
      EndsBefore(t, Along(b, xs), tok, n);
    } else {
      NodeChildren(g, u);
      SizesOne(u);
      ForestEnds(g, first, b, l, t, xs, Item(u.rule, 0), u.children, tok);
    }
  }

  // ---------------------------------------------------------------------------
  // So is one that follows after nothing else

  /** Trees without tokens, one after the other. */
  lemma {:induction false} EmptyNodes(g: Grammar, first: seq<set<nat>>, b: Automaton, l: Lookaheads, t: Tables,
                                      xs: seq<nat>, it: Item, ts: seq<Tree>, tok: nat) returns (n: nat)
    requires Solid(g, first, b, l, t) && Walk(b, 0, xs) < |b| && it in b[Walk(b, 0, xs)].items && ItemOk(g, it)
    requires ValidForest(g, ts) && Roots(g, ts) == g.rules[it.rule].rhs[it.dot..] && Yields(ts) == []
    requires tok < g.nterminal && tok in LookAt(l, Walk(b, 0, xs), it)
    ensures Rounds(t, Along(b, xs), tok, n) == Some(Along(b, xs + Roots(g, ts)))
    ensures var s := Walk(b, 0, xs + Roots(g, ts));
            s < |b| && CompleteItem(g, it.rule) in b[s].items && tok in LookAt(l, s, CompleteItem(g, it.rule))
    decreases ts
  {
    hide Solid, Complete, IsAutomaton, ScansComplete, ValidTree, FirstClosed, LookClosed, Along, Walk, LookAt, Rounds;
    if ts == [] {
      n := 0;
      assert xs + Roots(g, ts) == xs && it == CompleteItem(g, it.rule);
      NoRounds(t, Along(b, xs), tok);
    } else {
      SolidFacts(g, first, b, l, t);
      var s, u, rest := Walk(b, 0, xs), ts[0], ts[1..];
      FirstChild(g, b, s, it, ts);
      assert Yield(u) == [] && Yields(rest) == [];
      assert Fruitful(g, u.rule) by { assert ValidTree(g, u); }
      EmptyAhead(g, first, b, l, t, s, it, u.rule, rest);
      var m := EmptyNode(g, b, l, t, xs, u, tok);
      WalkAppend(b, 0, xs, Root(g, u));
      n := EmptyNodes(g, first, b, l, t, xs + [Root(g, u)], Advance(it), rest, tok);
      RoundsAppend(t, Along(b, xs), tok, m, n);
      n := m + n;
      assert xs + [Root(g, u)] + Roots(g, rest) == xs + Roots(g, ts);
    }
  }

  lemma NoRounds(t: Tables, states: seq<nat>, tok: nat)
    ensures Rounds(t, states, tok, 0) == Some(states)
  {
  }

  lemma EmptyAhead(g: Grammar, first: seq<set<nat>>, b: Automaton, l: Lookaheads, t: Tables, s: nat, it: Item,
                   r: nat, ts: seq<Tree>)
    requires Solid(g, first, b, l, t) && s < |b| && it in b[s].items && Calls(g, it, r) && ValidForest(g, ts)
    requires Rest(g, it) == Roots(g, ts) && Yields(ts) == [] && Fruitful(g, r)
    requires Next(g, it) in b[s].trans && b[s].trans[Next(g, it)] < |b|
    ensures LookAt(l, s, it) <= LookAt(l, s, Item(r, 0))
    ensures LookAt(l, s, it) <= LookAt(l, b[s].trans[Next(g, it)], Advance(it))
  {
    hide Solid, Frame, IsAutomaton, TablesComplete, ScansComplete, ValidTree, FirstClosed, LookAt, LookClosed;
    SolidFacts(g, first, b, l, t);
    assert Continues(g, it, ts);
    assert RealLocal(l, s, it, r, ts);
  }

  // ---------------------------------------------------------------------------
  // Every lookahead token is one that is shifted or accepted after the rule

  /** Having come along `xs`, the parser can begin any rule for the symbol of the item's
      rule, and once that symbol is on the stack the token does not keep it busy for ever. */
  ghost predicate GoodFrom(g: Grammar, b: Automaton, l: Lookaheads, t: Tables, xs: seq<nat>, s: nat, it: Item,
                           tok: nat) {
    var p := Walk(b, 0, xs);
    && ItemOk(g, it) && p < |b| && Walk(b, 0, xs + g.rules[it.rule].rhs[..it.dot]) == s
    && (forall r :: 0 <= r < |g.rules| && g.rules[r].lhs == g.rules[it.rule].lhs ==>
                      Item(r, 0) in b[p].items && tok in LookAt(l, p, Item(r, 0)))
    && if g.IsStartRule(it.rule) then xs == []
       else g.rules[it.rule].lhs in b[p].trans && Ends(t, Along(b, xs + [g.rules[it.rule].lhs]), tok)
  }

  ghost predicate Good(g: Grammar, b: Automaton, l: Lookaheads, t: Tables, s: nat, it: Item, tok: nat) {
    tok < g.nterminal && exists xs :: GoodFrom(g, b, l, t, xs, s, it, tok)
  }

  ghost function GoodLook(g: Grammar, b: Automaton, l: Lookaheads, t: Tables): (m: Lookaheads)
    ensures |m| == |b|
  {
    seq(|b|, s requires 0 <= s < |b| =>
      map it | it in b[s].items :: set tok | tok in LookAt(l, s, it) && Good(g, b, l, t, s, it, tok))
  }

  lemma GoodAt(g: Grammar, b: Automaton, l: Lookaheads, t: Tables, s: nat, it: Item, tok: nat)
    ensures tok in LookAt(GoodLook(g, b, l, t), s, it) <==>
            s < |b| && it in b[s].items && tok in LookAt(l, s, it) && Good(g, b, l, t, s, it, tok)
  {
    hide Good;
  }

  lemma GoodStart(g: Grammar, first: seq<set<nat>>, b: Automaton, l: Lookaheads, t: Tables, it: Item)
    requires g.WellFormed() && IsAutomaton(g, b) && LookClosed(g, ExplicitEmpty(g), first, b, l) && it in StartItems(g)
    ensures Good(g, b, l, t, 0, it, 0) && it in b[0].items && 0 in LookAt(l, 0, it)
  {
    hide LookLocal, Ends, LookAt;
    assert StateOk(g, b, 0);
    var xs: seq<nat> := [];
    assert xs + g.rules[it.rule].rhs[..0] == [] && Walk(b, 0, []) == 0;
    forall r | 0 <= r < |g.rules| && g.rules[r].lhs == g.rules[it.rule].lhs
      ensures Item(r, 0) in b[0].items && 0 in LookAt(l, 0, Item(r, 0))
    {
      assert Item(r, 0) in StartItems(g);
    }
    assert GoodFrom(g, b, l, t, xs, 0, it, 0);
  }

  lemma GoodShift(g: Grammar, b: Automaton, l: Lookaheads, t: Tables, s: nat, it: Item, tok: nat)
    requires s < |b| && CanShift(g, it) && Next(g, it) in b[s].trans && Good(g, b, l, t, s, it, tok)
    ensures Good(g, b, l, t, b[s].trans[Next(g, it)], Advance(it), tok)
  {
    hide Ends, LookAt, Walk;
    var xs :| GoodFrom(g, b, l, t, xs, s, it, tok);
    var rhs, d := g.rules[it.rule].rhs, it.dot;
    assert xs + rhs[..d + 1] == (xs + rhs[..d]) + [Next(g, it)];
    WalkAppend(b, 0, xs + rhs[..d], Next(g, it));
    assert GoodFrom(g, b, l, t, xs, b[s].trans[Next(g, it)], Advance(it), tok);
  }

  /** A rule called for is good before a token if the loop ends once its symbol is there. */
  lemma GoodCall(g: Grammar, b: Automaton, l: Lookaheads, t: Tables, xs: seq<nat>, s: nat, it: Item, r: nat, tok: nat)
    requires g.WellFormed() && g.StartNotOnRhs() && IsAutomaton(g, b) && Walk(b, 0, xs) == s < |b| && tok < g.nterminal
    requires it in b[s].items && Calls(g, it, r) && Ends(t, Along(b, xs + [Next(g, it)]), tok)
    requires forall r' :: 0 <= r' < |g.rules| && Calls(g, it, r') ==> tok in LookAt(l, s, Item(r', 0))
    ensures Good(g, b, l, t, s, Item(r, 0), tok)
  {
    hide Ends, LookAt, Walk, Along;
    assert StateOk(g, b, s);
    assert xs + g.rules[r].rhs[..0] == xs;
    forall r' | 0 <= r' < |g.rules| && g.rules[r'].lhs == g.rules[r].lhs
      ensures Item(r', 0) in b[s].items && tok in LookAt(l, s, Item(r', 0))
    {
      assert Calls(g, it, r');
    }
    assert GoodFrom(g, b, l, t, xs, s, Item(r, 0), tok);
  }

  /** What the scan of the rest of a rule finds. */
  lemma GoodFirst(g: Grammar, first: seq<set<nat>>, b: Automaton, l: Lookaheads, t: Tables, s: nat, it: Item, r: nat,
                  tok: nat)
    requires Solid(g, first, b, l, t) && s < |b| && it in b[s].items && Calls(g, it, r)
    requires tok in FirstOfSeq(g, ExplicitEmpty(g), first, Rest(g, it))
    ensures Good(g, b, l, t, s, Item(r, 0), tok)
  {
    hide Complete, IsAutomaton, ScansComplete, FirstClosed, LookClosed, Ends, Along, Walk, LookAt, ValidTree, Yields,
         ExplicitEmpty, FirstOfSeq, BeginsWith, Good, IsFirst, AllReached;
    SolidFacts(g, first, b, l, t);
    ScanWithin(g, ExplicitEmpty(g), first, Rest(g, it), tok);
    var ts := ScannedForest(g, first, it, tok);
    var xs := PathTo(b, s);
    var x := Next(g, it);
    ItemMoves(g, b, s, it);
    WalkAppend(b, 0, xs, x);
    ForestEnds(g, first, b, l, t, xs + [x], Advance(it), ts, tok);
    forall r' | 0 <= r' < |g.rules| && Calls(g, it, r') ensures tok in LookAt(l, s, Item(r', 0)) {
      LocalScan(g, first, b, l, s, it, r');
    }
    GoodCall(g, b, l, t, xs, s, it, r, tok);
  }

  lemma PathTo(b: Automaton, s: nat) returns (xs: seq<nat>)
    requires AllReached(b) && s < |b|
    ensures Walk(b, 0, xs) == s
  {
    assert Reached(b, s);
    xs :| Walk(b, 0, xs) == s;
  }

  lemma ItemMoves(g: Grammar, b: Automaton, s: nat, it: Item)
    requires IsAutomaton(g, b) && s < |b| && it in b[s].items && CanShift(g, it)
    ensures Next(g, it) in b[s].trans && b[s].trans[Next(g, it)] < |b|
    ensures Advance(it) in b[b[s].trans[Next(g, it)]].items && ItemOk(g, Advance(it))
  {
    assert StateOk(g, b, s);
    var k := b[s].trans[Next(g, it)];
    assert Advance(it) in b[k].basis && StateOk(g, b, k);
  }

  lemma LocalScan(g: Grammar, first: seq<set<nat>>, b: Automaton, l: Lookaheads, s: nat, it: Item, r: nat)
    requires LookClosed(g, ExplicitEmpty(g), first, b, l) && s < |b| && it in b[s].items && Calls(g, it, r)
    ensures LookLocal(g, ExplicitEmpty(g), first, l, s, it, r)
  {
  }

  lemma ScannedForest(g: Grammar, first: seq<set<nat>>, it: Item, tok: nat) returns (ts: seq<Tree>)
    requires g.WellFormed() && IsFirst(g, ExplicitEmpty(g), first) && CanShift(g, it)
    requires tok in FirstOfSeq(g, ExplicitEmpty(g), first, Rest(g, it))
    ensures ValidForest(g, ts) && Roots(g, ts) == Rest(g, it) && Yields(ts) != [] && Yields(ts)[0] == tok
  {
    hide ValidTree, Yields, Nullable, BeginsWith, FirstOfSeq, ExplicitEmpty, IsFirst;
    assert g.RuleOk(g.rules[it.rule]);
    ExplicitIsNullable(g);
    forall x, token | 0 <= x < |first| && token in first[x] ensures BeginsWith(g, x, token) {
      FirstSound(g, first, x, token);
    }
    ts := ScanBegins(g, ExplicitEmpty(g), first, Rest(g, it), tok);
  }

  /** What comes after the rule, if the rest of it can be empty. */
  lemma GoodEmpty(g: Grammar, first: seq<set<nat>>, b: Automaton, l: Lookaheads, t: Tables, s: nat, it: Item, r: nat,
                  tok: nat)
    requires Solid(g, first, b, l, t) && s < |b| && it in b[s].items && Calls(g, it, r)
    requires Transparent(g, ExplicitEmpty(g), Rest(g, it)) && tok in LookAt(l, s, it) && Good(g, b, l, t, s, it, tok)
    ensures Good(g, b, l, t, s, Item(r, 0), tok)
  {
    hide Solid, Complete, IsAutomaton, ScansComplete, FirstClosed, LookClosed, Ends, Along, Walk, LookAt, ValidTree,
         Yields, ExplicitEmpty, GoodFrom, Nullable, FirstOfSeq;
    SolidFacts(g, first, b, l, t);
    var xs :| GoodFrom(g, b, l, t, xs, s, it, tok);
    ExplicitIsNullable(g);
    var ts := EmptyForest(g, Rest(g, it));
    RestEnds(g, first, b, l, t, xs, s, it, ts, tok);
    forall r' | 0 <= r' < |g.rules| && Calls(g, it, r') ensures tok in LookAt(l, s, Item(r', 0)) {
      LocalScan(g, first, b, l, s, it, r');
    }
    var ys := xs + g.rules[it.rule].rhs[..it.dot];
    assert Walk(b, 0, ys) == s by { GoodWalk(g, b, l, t, xs, s, it, tok); }
    GoodCall(g, b, l, t, ys, s, it, r, tok);
  }

  lemma GoodWalk(g: Grammar, b: Automaton, l: Lookaheads, t: Tables, xs: seq<nat>, s: nat, it: Item, tok: nat)
    requires GoodFrom(g, b, l, t, xs, s, it, tok) && it.rule < |g.rules| && it.dot <= |g.rules[it.rule].rhs|
    ensures Walk(b, 0, xs + g.rules[it.rule].rhs[..it.dot]) == s && Walk(b, 0, xs) < |b|
    ensures g.IsStartRule(it.rule) ==> xs == []
    ensures !g.IsStartRule(it.rule) ==>
              g.rules[it.rule].lhs in b[Walk(b, 0, xs)].trans && Ends(t, Along(b, xs + [g.rules[it.rule].lhs]), tok)
  {
    hide Ends, Walk, Along;
  }

  /** The rest is passed, the rule is reduced, and then the loop ends as it is known to. */
  lemma RestEnds(g: Grammar, first: seq<set<nat>>, b: Automaton, l: Lookaheads, t: Tables, xs: seq<nat>, s: nat,
                 it: Item, ts: seq<Tree>, tok: nat)
    requires Solid(g, first, b, l, t) && s < |b| && it in b[s].items && CanShift(g, it) && tok in LookAt(l, s, it)
    requires GoodFrom(g, b, l, t, xs, s, it, tok) && tok < g.nterminal
    requires ValidForest(g, ts) && Roots(g, ts) == Rest(g, it) && Yields(ts) == []
    ensures Ends(t, Along(b, xs + g.rules[it.rule].rhs[..it.dot] + [Next(g, it)]), tok)
  {
    hide Solid, Complete, IsAutomaton, ScansComplete, FirstClosed, LookClosed, Ends, Along, Walk, LookAt, ValidTree,
         Yields, ExplicitEmpty, GoodFrom;
    SolidFacts(g, first, b, l, t);
    GoodWalk(g, b, l, t, xs, s, it, tok);
    var rhs := g.rules[it.rule].rhs;
    var ys := xs + rhs[..it.dot];
    var zs := ys + [Next(g, it)];
    ItemMoves(g, b, s, it);
    WalkAppend(b, 0, ys, Next(g, it));
    ShiftLook(g, first, b, l, s, it);
    var n := EmptyNodes(g, first, b, l, t, zs, Advance(it), ts, tok);
    assert zs + Roots(g, ts) == xs + rhs;
    CompletedEnds(g, b, l, t, xs, it.rule, tok);
    EndsBefore(t, Along(b, zs), tok, n);
  }

  lemma ShiftLook(g: Grammar, first: seq<set<nat>>, b: Automaton, l: Lookaheads, s: nat, it: Item)
    requires LookClosed(g, ExplicitEmpty(g), first, b, l) && s < |b| && it in b[s].items
    requires CanShift(g, it) && Next(g, it) in b[s].trans
    ensures LookAt(l, s, it) <= LookAt(l, b[s].trans[Next(g, it)], Advance(it))
  {
    hide LookLocal, LookAt;
  }

  /** Reducing a completed rule. */
  lemma CompletedEnds(g: Grammar, b: Automaton, l: Lookaheads, t: Tables, xs: seq<nat>, r: nat, tok: nat)
    requires Complete(g, b, l, t) && r < |g.rules| && tok < g.nterminal && Walk(b, 0, xs) < |b|
    requires Reduces(g, b, l, Walk(b, 0, xs + g.rules[r].rhs), CompleteItem(g, r), tok)
    requires g.IsStartRule(r) ==> xs == []
    requires !g.IsStartRule(r) ==>
               g.rules[r].lhs in b[Walk(b, 0, xs)].trans && Ends(t, Along(b, xs + [g.rules[r].lhs]), tok)
    ensures Ends(t, Along(b, xs + g.rules[r].rhs), tok)
  {
    hide Complete, Ends, Walk, Along, Reduces, FindShiftAction, FindReduceAction, Frame, TablesComplete, RealClosed,
         IsAutomaton;
    var states, x := Along(b, xs + g.rules[r].rhs), g.rules[r].lhs;
    CompleteFacts(g, b, l, t);
    AlongAppend(b, xs, g.rules[r].rhs);
    AlongAppend(b, xs + g.rules[r].rhs, []);
    AlongAppend(b, xs, [x]);
    WalkAppend(b, 0, xs, x);
    if g.IsStartRule(r) {
      assert xs + g.rules[r].rhs == g.rules[r].rhs;
      AcceptFacts(g, b, l, t, Walk(b, 0, g.rules[r].rhs), tok, r);
      FromStart(b);
      StopsHere(t, states, tok);
    } else {
      ReduceFacts(g, b, l, t, Walk(b, 0, xs + g.rules[r].rhs), Walk(b, 0, xs), tok, r);
      assert NextStates(t, states, tok) == Some(Along(b, xs + [x]));
      OneRound(t, states, tok);
      EndsBefore(t, states, tok, 1);
    }
  }

  lemma FromStart(b: Automaton)
    ensures Walk(b, 0, []) == 0
  {
  }

  lemma OneRound(t: Tables, states: seq<nat>, tok: nat)
    requires NextStates(t, states, tok).Some?
    ensures Rounds(t, states, tok, 1) == NextStates(t, states, tok)
  {
    hide NextStates;
    NoRounds(t, NextStates(t, states, tok).value, tok);
  }

  lemma AcceptFacts(g: Grammar, b: Automaton, l: Lookaheads, t: Tables, s: nat, tok: nat, r: nat)
    requires Frame(g, b, t) && TablesComplete(g, b, l, t) && tok < g.nterminal && g.IsStartRule(r)
    requires Reduces(g, b, l, s, CompleteItem(g, r), tok)
    ensures FindShiftAction(t, s, tok) == Some(t.nstate + r)
    ensures t.nrule == |g.rules| == |t.ruleInfo| && t.ruleInfo[r] == (g.rules[r].lhs, |g.rules[r].rhs|)
    ensures FindReduceAction(t, 0, g.rules[r].lhs) == Some(AcceptAction(t))
  {
    hide IsAutomaton, FindShiftAction, FindReduceAction;
  }

  lemma GoodClosed(g: Grammar, first: seq<set<nat>>, b: Automaton, l: Lookaheads, t: Tables)
    requires Solid(g, first, b, l, t)
    ensures LookClosed(g, ExplicitEmpty(g), first, b, GoodLook(g, b, l, t))
  {
    hide Solid, Complete, IsAutomaton, ScansComplete, FirstClosed, Good, GoodLook, LookAt, ExplicitEmpty, FirstOfSeq,
         Transparent, LookLocal;
    SolidFacts(g, first, b, l, t);
    var m := GoodLook(g, b, l, t);
    forall it | it in StartItems(g) ensures 0 in LookAt(m, 0, it) {
      GoodStart(g, first, b, l, t, it);
      GoodAt(g, b, l, t, 0, it, 0);
    }
    forall s, it, r | 0 <= s < |b| && it in b[s].items && Calls(g, it, r)
      ensures LookLocal(g, ExplicitEmpty(g), first, m, s, it, r)
    {
      GoodLocal(g, first, b, l, t, s, it, r);
    }
    forall s, it | 0 <= s < |b| && it in b[s].items && CanShift(g, it) && Next(g, it) in b[s].trans
      ensures LookAt(m, s, it) <= LookAt(m, b[s].trans[Next(g, it)], Advance(it))
    {
      var k := b[s].trans[Next(g, it)];
      ItemMoves(g, b, s, it);
      ShiftLook(g, first, b, l, s, it);
      forall tok | tok in LookAt(m, s, it) ensures tok in LookAt(m, k, Advance(it)) {
        GoodAt(g, b, l, t, s, it, tok);
        GoodShift(g, b, l, t, s, it, tok);
        GoodAt(g, b, l, t, k, Advance(it), tok);
      }
    }
  }

  lemma GoodLocal(g: Grammar, first: seq<set<nat>>, b: Automaton, l: Lookaheads, t: Tables, s: nat, it: Item, r: nat)
    requires Solid(g, first, b, l, t) && s < |b| && it in b[s].items && Calls(g, it, r)
    ensures LookLocal(g, ExplicitEmpty(g), first, GoodLook(g, b, l, t), s, it, r)
  {
    hide Solid, Complete, IsAutomaton, ScansComplete, FirstClosed, Good, GoodLook, LookAt, ExplicitEmpty, FirstOfSeq,
         Transparent, LookClosed;
    SolidFacts(g, first, b, l, t);
    var m := GoodLook(g, b, l, t);
    LocalScan(g, first, b, l, s, it, r);
    CalledThere(g, b, s, it, r);
    forall tok | tok in FirstOfSeq(g, ExplicitEmpty(g), first, Rest(g, it)) ensures tok in LookAt(m, s, Item(r, 0)) {
      GoodFirst(g, first, b, l, t, s, it, r, tok);
      GoodAt(g, b, l, t, s, Item(r, 0), tok);
    }
    if Transparent(g, ExplicitEmpty(g), Rest(g, it)) {
      forall tok | tok in LookAt(m, s, it) ensures tok in LookAt(m, s, Item(r, 0)) {
        GoodAt(g, b, l, t, s, it, tok);
        GoodEmpty(g, first, b, l, t, s, it, r, tok);
        GoodAt(g, b, l, t, s, Item(r, 0), tok);
      }
    }
  }

  lemma CalledThere(g: Grammar, b: Automaton, s: nat, it: Item, r: nat)
    requires IsAutomaton(g, b) && s < |b| && it in b[s].items && Calls(g, it, r)
    ensures Item(r, 0) in b[s].items
  {
    assert StateOk(g, b, s);
  }

  /** By leastness, all lookahead tokens are. */
  lemma AllGood(g: Grammar, first: seq<set<nat>>, b: Automaton, l: Lookaheads, t: Tables, s: nat, it: Item, tok: nat)
    requires Solid(g, first, b, l, t) && s < |b| && it in b[s].items && tok in LookAt(l, s, it)
    ensures Good(g, b, l, t, s, it, tok)
  {
    hide Complete, ScansComplete, LookClosed, Good, GoodLook, LookAt, ExplicitEmpty, IsFirst, AllReached;
    GoodClosed(g, first, b, l, t);
    assert LookBelow(b, l, GoodLook(g, b, l, t));
    GoodAt(g, b, l, t, s, it, tok);
  }

  // ---------------------------------------------------------------------------
  // Trees without detours

  /** In some state, some token calls for reducing the rule. */
  ghost predicate KnownRule(g: Grammar, b: Automaton, l: Lookaheads, r: nat) {
    r < |g.rules| && exists s: nat, tok :: Reduces(g, b, l, s, CompleteItem(g, r), tok)
  }

  ghost predicate Known(g: Grammar, b: Automaton, l: Lookaheads, tree: Tree)
    decreases tree
  {
    tree.Branch? ==> && KnownRule(g, b, l, tree.rule)
                     && forall i :: 0 <= i < |tree.children| ==> Known(g, b, l, tree.children[i])
  }

  /** Two trees for the same symbol and tokens would be parsed one after the other, for
      ever. */
  lemma SameTree(g: Grammar, first: seq<set<nat>>, b: Automaton, l: Lookaheads, t: Tables, u: Tree, v: Tree)
    requires Solid(g, first, b, l, t) && u.Branch? && v.Branch? && ValidTree(g, u) && ValidTree(g, v)
    requires KnownRule(g, b, l, u.rule) && !g.IsStartRule(u.rule) && Root(g, u) == Root(g, v)
    requires TokensOnly(g, Yield(u)) && Yield(u) == Yield(v)
    ensures u == v
  {
    hide Solid, Complete, IsAutomaton, ScansComplete, FirstClosed, LookClosed, ValidTree, Yield, LookAt, Ends, Along,
         Walk, GoodFrom, Need, Run;
    SolidFacts(g, first, b, l, t);
    NodeChildren(g, u);
    NodeChildren(g, v);
    var s: nat, tok :| Reduces(g, b, l, s, CompleteItem(g, u.rule), tok);
    AllGood(g, first, b, l, t, s, CompleteItem(g, u.rule), tok);
    var xs :| GoodFrom(g, b, l, t, xs, s, CompleteItem(g, u.rule), tok);
    var x := Root(g, u);
    GoodWalk(g, b, l, t, xs, s, CompleteItem(g, u.rule), tok);
    GoodRules(g, b, l, t, xs, s, CompleteItem(g, u.rule), tok, u.rule);
    GoodRules(g, b, l, t, xs, s, CompleteItem(g, u.rule), tok, v.rule);
    var depth := |xs| + 1 + Need(u) + Need(v);
    var m, d := NodeRuns(g, b, l, t, depth, xs, u, tok);
    var n, e := NodeRuns(g, b, l, t, depth, xs, v, tok);
    if m < n {
      Circle(t, depth, Yield(u) + [tok], Waiting(b, xs), m, n, d, e, Along(b, xs + [x]), |Yield(u)|);
    } else if n < m {
      Circle(t, depth, Yield(u) + [tok], Waiting(b, xs), n, m, e, d, Along(b, xs + [x]), |Yield(u)|);
    } else {
      PushedEntry(Waiting(b, xs), d, e, |Yield(u)|);
    }
  }

  lemma GoodRules(g: Grammar, b: Automaton, l: Lookaheads, t: Tables, xs: seq<nat>, s: nat, it: Item, tok: nat, r: nat)
    requires GoodFrom(g, b, l, t, xs, s, it, tok) && it.rule < |g.rules| && r < |g.rules|
    requires Walk(b, 0, xs) < |b| && g.rules[r].lhs == g.rules[it.rule].lhs
    ensures Item(r, 0) in b[Walk(b, 0, xs)].items && tok in LookAt(l, Walk(b, 0, xs), Item(r, 0))
  {
    hide Ends, Walk, Along;
  }

  lemma PushedEntry(p: Parser, d: Entry, e: Entry, k: nat)
    requires Pushed(p, [d], k) == Pushed(p, [e], k)
    ensures d == e
  {
    assert (p.stack + [d])[|p.stack|] == (p.stack + [e])[|p.stack|];
  }

  lemma Circle(t: Tables, depth: nat, input: seq<nat>, p: Parser, m: nat, n: nat, d: Entry, e: Entry, states: seq<nat>,
               k: nat)
    requires m < n && k + 1 == |input| && p.pos == 0
    requires Run(t, depth, input, p, m) == Some(Pushed(p, [d], k))
    requires Run(t, depth, input, p, n) == Some(Pushed(p, [e], k))
    requires StatesOf(p.stack + [d]) == states == StatesOf(p.stack + [e])
    ensures !Ends(t, states, input[k])
  {
    hide Run, Rounds;
    RunAppend(t, depth, input, p, m, n - m);
    RunIsRounds(t, depth, input, Pushed(p, [d], k), n - m);
    forall j: nat ensures Rounds(t, states, input[k], j).Some? {
      LoopGoesOn(t, states, input[k], n - m, j);
    }
  }

  /** So a tree all of whose rules are known has no detours. */
  lemma {:induction false} KnownIsLean(g: Grammar, first: seq<set<nat>>, b: Automaton, l: Lookaheads, t: Tables,
                                       tree: Tree)
    requires Solid(g, first, b, l, t) && ValidTree(g, tree) && Known(g, b, l, tree) && TokensOnly(g, Yield(tree))
    requires Root(g, tree) != g.start
    ensures Lean(g, tree)
    decreases tree
  {
    hide Solid, Yield, Yields, Contains, KnownRule;
    if tree.Branch? {
      SolidFacts(g, first, b, l, t);
      forall i | 0 <= i < |tree.children|
        ensures !Contains(g, tree.children[i], Root(g, tree), Yield(tree)) && Lean(g, tree.children[i])
      {
        var c := tree.children[i];
        assert Roots(g, tree.children)[i] == Root(g, c) == g.rules[tree.rule].rhs[i];
        ChildTokens(g, tree, i);
        KnownIsLean(g, first, b, l, t, c);
        if Contains(g, c, Root(g, tree), Yield(tree)) {
          Detour(g, first, b, l, t, tree, i);
        }
      }
    }
  }

  lemma ChildTokens(g: Grammar, tree: Tree, i: nat)
    requires tree.Branch? && i < |tree.children| && TokensOnly(g, Yield(tree))
    ensures TokensOnly(g, Yield(tree.children[i]))
  {
    ForestPart(g, tree.children, i);
  }

  lemma {:induction false} ForestPart(g: Grammar, ts: seq<Tree>, i: nat)
    requires i < |ts| && TokensOnly(g, Yields(ts))
    ensures TokensOnly(g, Yield(ts[i]))
  {
    var y, z := Yield(ts[0]), Yields(ts[1..]);
    assert Yields(ts) == y + z;
    if i == 0 {
      forall k | 0 <= k < |y| ensures 0 < y[k] < g.nterminal {
        assert y[k] == (y + z)[k];
      }
    } else {
      forall k | 0 <= k < |z| ensures 0 < z[k] < g.nterminal {
        assert z[k] == (y + z)[|y| + k];
      }
      ForestPart(g, ts[1..], i - 1);
    }
  }

  /** A child cannot derive the same from the same symbol. */
  lemma Detour(g: Grammar, first: seq<set<nat>>, b: Automaton, l: Lookaheads, t: Tables, tree: Tree, i: nat)
    requires Solid(g, first, b, l, t) && tree.Branch? && ValidTree(g, tree) && TokensOnly(g, Yield(tree))
    requires KnownRule(g, b, l, tree.rule) && Root(g, tree) != g.start && i < |tree.children|
    ensures !Contains(g, tree.children[i], Root(g, tree), Yield(tree))
  {
    hide Solid, Yield, Yields, Contains, KnownRule;
    if Contains(g, tree.children[i], Root(g, tree), Yield(tree)) {
      SolidFacts(g, first, b, l, t);
      var d := Extract(g, tree.children[i], Root(g, tree), Yield(tree));
      YieldPart(tree.children, i);
      SizesOne(tree);
      assert g.RuleOk(g.rules[tree.rule]);
      NotLeaf(g, d);
      SameTree(g, first, b, l, t, tree, d);
    }
  }

  lemma NotLeaf(g: Grammar, d: Tree)
    requires g.nterminal <= Root(g, d) && TokensOnly(g, Yield(d))
    ensures d.Branch?
  {
    if d.Leaf? { assert Yield(d)[0] == Root(g, d); }
  }

  // ---------------------------------------------------------------------------
  // The trees on the stack

  ghost predicate StackKnown(g: Grammar, b: Automaton, l: Lookaheads, stack: seq<Entry>) {
    forall i :: 0 <= i < |stack| ==> Known(g, b, l, stack[i].minor)
  }

  lemma ReduceKnown(g: Grammar, b: Automaton, l: Lookaheads, t: Tables, depth: nat, p: Parser, r: nat)
    requires StackKnown(g, b, l, p.stack) && KnownRule(g, b, l, r) && Reduce(t, depth, p, r).Some?
    ensures StackKnown(g, b, l, Reduce(t, depth, p, r).value.stack)
  {
    hide FindReduceAction, KnownRule;
    var base := |p.stack| - t.ruleInfo[r].1;
    var ch := Minors(p.stack[base..]);
    assert forall i :: 0 <= i < |ch| ==> ch[i] == p.stack[base + i].minor;
    assert Known(g, b, l, Branch(r, ch));
  }

  /** A turn makes nodes of known rules only. */
  lemma TurnKnown(g: Grammar, b: Automaton, l: Lookaheads, t: Tables, depth: nat, p: Parser, tok: nat)
    requires Generated(g, b, l, t) && StackOk(g, b, p.stack) && p.stack != [] && StackKnown(g, b, l, p.stack)
    requires tok < g.nterminal && !Iterate(t, depth, p, tok).Abort?
    ensures StackKnown(g, b, l, Iterate(t, depth, p, tok).parser.stack)
  {
    hide FindShiftAction, Reduce, IsAutomaton, GotosOk, Reduces;
    var s := p.stack[|p.stack| - 1].stateno;
    assert TokenActionOk(g, b, l, t, s, tok);
    var f := FindShiftAction(t, s, tok).value;
    if t.nstate <= f < t.nstate + t.nrule {
      var r := f - t.nstate;
      assert ReduceOk(g, b, l, s, tok, r);
      assert KnownRule(g, b, l, r);
      ReduceKnown(g, b, l, t, depth, p, r);
    }
  }

  lemma {:induction false} RunKnown(g: Grammar, b: Automaton, l: Lookaheads, t: Tables, depth: nat, input: seq<nat>,
                                    p: Parser, n: nat)
    requires Generated(g, b, l, t) && InputOk(g, input) && RunOk(g, b, input, p) && StackKnown(g, b, l, p.stack)
    requires Run(t, depth, input, p, n).Some?
    ensures StackKnown(g, b, l, Run(t, depth, input, p, n).value.stack)
    decreases n
  {
    hide Generated, RunOk, Iterate, Known;
    if n > 0 {
      RunSound(g, b, l, t, depth, input, p, 1);
      var q := Step(t, depth, input, p).value;
      assert Run(t, depth, input, p, 1) == Some(q) by { assert Run(t, depth, input, q, 0) == Some(q); }
      if p.pos < |input| {
        InitialKnown(g, b, l, t, input, p);
        TurnKnown(g, b, l, t, depth, Initialised(p), input[p.pos]);
      }
      RunKnown(g, b, l, t, depth, input, q, n - 1);
    }
  }

  lemma InitialKnown(g: Grammar, b: Automaton, l: Lookaheads, t: Tables, input: seq<nat>, p: Parser)
    requires Generated(g, b, l, t) && RunOk(g, b, input, p) && StackKnown(g, b, l, p.stack)
    ensures StackKnown(g, b, l, Initialised(p).stack) && StackOk(g, b, Initialised(p).stack)
    ensures RunOk(g, b, input, Initialised(p))
  {
    hide RunOk, TablesFor, IsAutomaton;
    InitialisedOk(g, b, input, p);
    RunStackOk(g, b, input, Initialised(p));
  }

  lemma RunStackOk(g: Grammar, b: Automaton, input: seq<nat>, p: Parser)
    requires RunOk(g, b, input, p)
    ensures StackOk(g, b, p.stack)
  {
  }

  lemma StackIsLean(g: Grammar, first: seq<set<nat>>, b: Automaton, l: Lookaheads, t: Tables, input: seq<nat>,
                    p: Parser)
    requires Solid(g, first, b, l, t) && RunOk(g, b, input, p) && InputOk(g, input) && p.stack != []
    requires StackKnown(g, b, l, p.stack)
    ensures StackLean(g, p.stack)
  {
    KeptTokens(g, b, input, p);
    RunStackOk(g, b, input, p);
    SolidFacts(g, first, b, l, t);
    hide Solid, Complete, RunOk, IsAutomaton, ValidTree, Yield, Lean, Known, ScansComplete;
    forall k | 0 < k < |p.stack| ensures Lean(g, p.stack[k].minor) {
      EntryTokens(g, p.stack, k);
      NotStart(g, b, p.stack, k);
      KnownIsLean(g, first, b, l, t, p.stack[k].minor);
    }
  }

  lemma NotStart(g: Grammar, b: Automaton, stack: seq<Entry>, k: nat)
    requires g.StartNotOnRhs() && IsAutomaton(g, b) && StackOk(g, b, stack) && 0 < k < |stack|
    ensures Root(g, stack[k].minor) != g.start
  {
    hide ValidTree;
    assert Linked(b, stack[k - 1], stack[k]) && StateOk(g, b, stack[k - 1].stateno);
  }

  lemma {:induction false} TurnsAreLean(g: Grammar, first: seq<set<nat>>, b: Automaton, l: Lookaheads, t: Tables,
                                        depth: nat, input: seq<nat>, p: Parser, n: nat)
    requires Solid(g, first, b, l, t) && Generated(g, b, l, t) && RunOk(g, b, input, p) && InputOk(g, input)
    requires p.pos < |input| && p.stack != [] && StackKnown(g, b, l, p.stack)
    ensures LeanTurns(g, t, depth, p, input[p.pos], n)
    decreases n
  {
    hide Solid, Generated, RunOk, Iterate, StackLean, StackKnown;
    StackIsLean(g, first, b, l, t, input, p);
    if n > 0 {
      IterateKeeps(g, b, l, t, depth, input, p);
      PositionKept(t, depth, p, input[p.pos]);
      var o := Iterate(t, depth, p, input[p.pos]);
      if o.Again? {
        RunStackOk(g, b, input, p);
        TurnKnown(g, b, l, t, depth, p, input[p.pos]);
        TurnsAreLean(g, first, b, l, t, depth, input, o.parser, n - 1);
      }
    }
  }

  /** Every call of `Parse` ends, on every token, at every moment of every run. */
  lemma SolidCallEnds(g: Grammar, first: seq<set<nat>>, b: Automaton, l: Lookaheads, t: Tables, depth: nat,
                      input: seq<nat>, n: nat)
    requires Solid(g, first, b, l, t) && Generated(g, b, l, t) && InputOk(g, input) && depth > 0
    requires Run(t, depth, input, FreshParser, n).Some? && Run(t, depth, input, FreshParser, n).value.pos < |input|
    ensures var p := Run(t, depth, input, FreshParser, n).value;
            Turns(t, depth, Initialised(p), input[p.pos], TurnBound(g, depth, |input|)).Consumed?
  {
    hide Solid, Generated, RunOk, Run, Turns, TurnBound, StackKnown;
    var p := Run(t, depth, input, FreshParser, n).value;
    FreshOk(g, b, l, input);
    RunSound(g, b, l, t, depth, input, FreshParser, n);
    RunDepth(t, depth, input, FreshParser, n);
    RunKnown(g, b, l, t, depth, input, FreshParser, n);
    InitialKnown(g, b, l, t, input, p);
    TurnsAreLean(g, first, b, l, t, depth, input, Initialised(p), TurnBound(g, depth, |input|));
    LeanCallEnds(g, b, l, t, depth, input, p);
  }

  lemma FreshOk(g: Grammar, b: Automaton, l: Lookaheads, input: seq<nat>)
    ensures RunOk(g, b, input, FreshParser) && StackKnown(g, b, l, FreshParser.stack)
  {
  }
}
