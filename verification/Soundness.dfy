/** Every run of a generated parser, on every token sequence: no assertion of the
    driver fires, and whatever is accepted is a sentence. */
module Soundness {
  import opened Options
  import opened Grammars
  import opened Automata
  import opened Driver

  // ---------------------------------------------------------------------------
  // What the tables promise about the automaton

  ghost predicate TokenActionOk(g: Grammar, a: Automaton, look: Lookaheads, t: Tables, s: nat, tok: nat)
    requires s < |a|
  {
    var f := FindShiftAction(t, s, tok);
    && f.Some? && 0 <= f.value <= ErrorAction(t)
    && (f.value < t.nstate ==> tok in a[s].trans && a[s].trans[tok] == f.value)
    && (t.nstate <= f.value < ErrorAction(t) ==> ReduceOk(g, a, look, s, tok, f.value - t.nstate))
  }

  /** The rule is completed in the state, some token calls for it there, and a
      start rule is not reduced by default. */
  ghost predicate ReduceOk(g: Grammar, a: Automaton, look: Lookaheads, s: nat, tok: nat, r: nat) {
    && r < |g.rules|
    && (exists b :: Reduces(g, a, look, s, CompleteItem(g, r), b))
    && (g.IsStartRule(r) ==> Reduces(g, a, look, s, CompleteItem(g, r), tok))
  }

  ghost predicate GotosOk(g: Grammar, a: Automaton, t: Tables) {
    && (forall s, x :: 0 <= s < |a| && x in a[s].trans && x >= g.nterminal ==>
                         FindReduceAction(t, s, x) == Some(a[s].trans[x]))
    && FindReduceAction(t, 0, g.start) == Some(AcceptAction(t))
  }

  ghost predicate TablesFor(g: Grammar, a: Automaton, look: Lookaheads, t: Tables) {
    && t.nstate == |a| && t.nrule == |g.rules| == |t.ruleInfo|
    && (forall r :: 0 <= r < |g.rules| ==> t.ruleInfo[r] == (g.rules[r].lhs, |g.rules[r].rhs| % 256))
    && (forall s, tok :: 0 <= s < |a| && 0 <= tok < g.nterminal ==> TokenActionOk(g, a, look, t, s, tok))
    && GotosOk(g, a, t)
  }

  /** A generated parser: automaton, lookaheads and tables. */
  ghost predicate Generated(g: Grammar, a: Automaton, look: Lookaheads, t: Tables) {
    && g.WellFormed() && g.StartNotOnRhs() && g.RhsFits()
    && IsAutomaton(g, a)
    && (forall s, it :: 0 <= s < |a| && it in a[s].items && g.IsStartRule(it.rule) ==> LookAt(look, s, it) <= {0})
    && TablesFor(g, a, look, t)
  }

  // ---------------------------------------------------------------------------
  // The stack is a path of the automaton

  predicate Linked(a: Automaton, d: Entry, e: Entry) {
    d.stateno < |a| && e.major in a[d.stateno].trans && a[d.stateno].trans[e.major] == e.stateno
  }

  ghost predicate StackOk(g: Grammar, a: Automaton, stack: seq<Entry>) {
    stack != [] ==>
      && stack[0].stateno == 0 && stack[0].minor.Leaf?
      && (forall i :: 0 <= i < |stack| ==> stack[i].stateno < |a|)
      && (forall i :: 0 < i < |stack| ==> Linked(a, stack[i - 1], stack[i]))
      && (forall i :: 0 < i < |stack| ==> ValidTree(g, stack[i].minor) && Root(g, stack[i].minor) == stack[i].major)
  }

  /** Seen from the top of the stack, an item has its symbols below it. */
  lemma {:induction false} ItemOnStack(g: Grammar, a: Automaton, stack: seq<Entry>, top: nat, it: Item)
    requires IsAutomaton(g, a) && StackOk(g, a, stack)
    requires top < |stack| && it in a[stack[top].stateno].items
    ensures ItemOk(g, it) && it.dot <= top
    ensures forall k :: 0 <= k < it.dot ==> stack[top - it.dot + 1 + k].major == g.rules[it.rule].rhs[k]
    ensures Item(it.rule, 0) in a[stack[top - it.dot].stateno].items
    decreases it.dot
  {
    hide ValidTree, IsClosure;
    var s := stack[top].stateno;
    assert StateOk(g, a, s);
    if it.dot > 0 {
      if it !in a[s].basis {
        ClosureSupported(g, a[s].basis, a[s].items, it);
      }
      assert top > 0;
      assert Linked(a, stack[top - 1], stack[top]);
      var p := stack[top - 1].stateno;
      var x := stack[top].major;
      assert StateOk(g, a, p);
      assert it in GotoBasis(g, a[p].items, x);
      var j :| j in a[p].items && ShiftsOn(g, j, x) && Advance(j) == it;
      ItemOnStack(g, a, stack, top - 1, j);
    }
  }

  /** A state other than the one at the bottom holds rule starts only where they
      are called for; the bottom state also holds the start rules. */
  lemma RuleStart(g: Grammar, a: Automaton, stack: seq<Entry>, i: nat, r: nat)
    requires g.WellFormed() && g.StartNotOnRhs() && IsAutomaton(g, a) && StackOk(g, a, stack)
    requires i < |stack| && r < |g.rules| && Item(r, 0) in a[stack[i].stateno].items
    ensures g.IsStartRule(r) ==> i == 0
    ensures !g.IsStartRule(r) ==> g.rules[r].lhs in a[stack[i].stateno].trans
  {
    var s := stack[i].stateno;
    assert StateOk(g, a, s);
    if i > 0 {
      assert Linked(a, stack[i - 1], stack[i]) && StateOk(g, a, stack[i - 1].stateno);
    }
    if Item(r, 0) !in a[s].basis {
      ClosureSupported(g, a[s].basis, a[s].items, Item(r, 0));
    }
  }

  // ---------------------------------------------------------------------------
  // The invariant of a run

  /** `kept` is what is left of `seen` after dropping some tokens. */
  ghost predicate Subsequence(kept: seq<nat>, seen: seq<nat>)
    decreases |seen|
  {
    if seen == [] then kept == []
    else
      var front := seen[..|seen| - 1];
      || Subsequence(kept, front)
      || (kept != [] && kept[|kept| - 1] == seen[|seen| - 1] && Subsequence(kept[..|kept| - 1], front))
  }

  lemma SubsequenceKeep(kept: seq<nat>, seen: seq<nat>, x: nat)
    requires Subsequence(kept, seen)
    ensures Subsequence(kept + [x], seen + [x])
  {
    assert (seen + [x])[..|seen|] == seen && (kept + [x])[..|kept|] == kept;
  }

  lemma SubsequenceDrop(kept: seq<nat>, seen: seq<nat>, x: nat)
    requires Subsequence(kept, seen)
    ensures Subsequence(kept, seen + [x])
  {
    assert (seen + [x])[..|seen|] == seen;
  }

  lemma {:induction false} SubsequenceWhole(kept: seq<nat>, seen: seq<nat>)
    requires Subsequence(kept, seen)
    ensures |kept| <= |seen|
    ensures |kept| == |seen| ==> kept == seen
    decreases |seen|
  {
    if seen != [] {
      var front := seen[..|seen| - 1];
      if Subsequence(kept, front) {
        SubsequenceWhole(kept, front);
      } else {
        SubsequenceWhole(kept[..|kept| - 1], front);
        assert kept == kept[..|kept| - 1] + [kept[|kept| - 1]];
        assert seen == front + [seen[|seen| - 1]];
      }
    }
  }

  function Kept(stack: seq<Entry>): seq<nat>
    requires stack != []
  {
    Yields(Minors(stack[1..]))
  }

  /** A tree accepted at the end-of-input token: a parse of the tokens that were
      not thrown away, which is all of them if none was. */
  ghost predicate AcceptOk(g: Grammar, input: seq<nat>, e: Event)
    requires e.Accept?
  {
    && e.from <= e.upto < |input| && input[e.upto] == 0
    && IsParse(g, e.tree, Yield(e.tree))
    && Subsequence(Yield(e.tree), input[e.from..e.upto])
    && |Yield(e.tree)| + e.discarded == e.upto - e.from
  }

  ghost predicate LogOk(g: Grammar, input: seq<nat>, log: seq<Event>) {
    forall i :: 0 <= i < |log| && log[i].Accept? ==> AcceptOk(g, input, log[i])
  }

  ghost predicate RunOk(g: Grammar, a: Automaton, input: seq<nat>, p: Parser) {
    && StackOk(g, a, p.stack)
    && LogOk(g, input, p.log)
    && p.pos <= |input|
    && (p.stack != [] ==>
      && p.from <= p.pos
      && Subsequence(Kept(p.stack), input[p.from..p.pos])
      && |Kept(p.stack)| + p.discarded == p.pos - p.from)
  }

  lemma KeptPush(stack: seq<Entry>, e: Entry)
    requires stack != []
    ensures Kept(stack + [e]) == Kept(stack) + Yield(e.minor)
  {
    assert (stack + [e])[1..] == stack[1..] + [e];
    assert Minors(stack[1..] + [e]) == Minors(stack[1..]) + [e.minor];
    YieldsAppend(Minors(stack[1..]), [e.minor]);
    YieldsOne(e.minor);
  }

  lemma KeptSplit(stack: seq<Entry>, base: nat)
    requires 0 < base <= |stack|
    ensures Kept(stack) == Kept(stack[..base]) + Yields(Minors(stack[base..]))
  {
    assert stack[1..] == stack[..base][1..] + stack[base..];
    assert Minors(stack[1..]) == Minors(stack[..base][1..]) + Minors(stack[base..]);
    YieldsAppend(Minors(stack[..base][1..]), Minors(stack[base..]));
  }

  lemma PushOk(g: Grammar, a: Automaton, stack: seq<Entry>, e: Entry)
    requires stack != [] && StackOk(g, a, stack)
    requires e.stateno < |a| && Linked(a, stack[|stack| - 1], e)
    requires ValidTree(g, e.minor) && Root(g, e.minor) == e.major
    ensures StackOk(g, a, stack + [e])
  {
    var st := stack + [e];
    forall i | 0 < i < |st| ensures Linked(a, st[i - 1], st[i]) {
      if i < |stack| { assert Linked(a, stack[i - 1], stack[i]); }
    }
  }

  lemma InitialisedOk(g: Grammar, a: Automaton, input: seq<nat>, p: Parser)
    requires IsAutomaton(g, a) && RunOk(g, a, input, p)
    ensures RunOk(g, a, input, Initialised(p)) && Initialised(p).stack != []
    ensures Initialised(p).pos == p.pos
  {
    var q := Initialised(p);
    if p.stack == [] {
      assert q.stack[1..] == [];
      assert input[q.from..q.pos] == [];
    }
  }

  /** Shifting a token keeps the invariant at the next position. */
  lemma ShiftKeeps(g: Grammar, a: Automaton, depth: nat, input: seq<nat>, p: Parser, k: nat)
    requires g.WellFormed() && IsAutomaton(g, a) && RunOk(g, a, input, p) && p.stack != [] && p.pos < |input|
    requires k < |a| && 0 < input[p.pos] < g.nterminal
    requires Linked(a, p.stack[|p.stack| - 1], Entry(k, input[p.pos], Leaf(input[p.pos])))
    ensures var q := Shift(depth, p, Entry(k, input[p.pos], Leaf(input[p.pos])));
            RunOk(g, a, input, q.(errcnt := q.errcnt - 1, pos := p.pos + 1))
  {
    var tok := input[p.pos];
    var e := Entry(k, tok, Leaf(tok));
    if |p.stack| < depth {
      PushOk(g, a, p.stack, e);
      KeptPush(p.stack, e);
      assert input[p.from..p.pos + 1] == input[p.from..p.pos] + [tok];
      SubsequenceKeep(Kept(p.stack), input[p.from..p.pos], tok);
    }
  }

  /** Throwing a token away keeps the invariant at the next position. */
  lemma DiscardKeeps(g: Grammar, a: Automaton, input: seq<nat>, p: Parser, q: Parser)
    requires RunOk(g, a, input, p) && p.stack != [] && p.pos < |input|
    requires q.stack == p.stack && q.from == p.from && q.pos == p.pos + 1 && q.discarded == p.discarded + 1
    requires LogOk(g, input, q.log)
    ensures RunOk(g, a, input, q)
  {
    assert input[p.from..p.pos + 1] == input[p.from..p.pos] + [input[p.pos]];
    SubsequenceDrop(Kept(p.stack), input[p.from..p.pos], input[p.pos]);
  }

  /** The top of the stack holds the right-hand side of a completed rule. */
  lemma HandleOnStack(g: Grammar, a: Automaton, stack: seq<Entry>, r: nat)
    requires IsAutomaton(g, a) && StackOk(g, a, stack) && stack != []
    requires r < |g.rules| && CompleteItem(g, r) in a[stack[|stack| - 1].stateno].items
    ensures var size := |g.rules[r].rhs|;
            && size < |stack|
            && ValidTree(g, Branch(r, Minors(stack[|stack| - size..])))
            && Item(r, 0) in a[stack[|stack| - size - 1].stateno].items
  {
    var size := |g.rules[r].rhs|;
    ItemOnStack(g, a, stack, |stack| - 1, CompleteItem(g, r));
    var ch := Minors(stack[|stack| - size..]);
    forall k | 0 <= k < size ensures ch[k] == stack[|stack| - size + k].minor && Roots(g, ch)[k] == g.rules[r].rhs[k] {
    }
    assert Roots(g, ch) == g.rules[r].rhs;
  }

  /** Popping by the length kept in a byte: with the right-hand side on the stack,
      the node that a reduce builds is a proper one exactly if the rule is short
      enough. */
  lemma NodeValidIff(g: Grammar, a: Automaton, look: Lookaheads, t: Tables, stack: seq<Entry>, r: nat)
    requires IsAutomaton(g, a) && TablesFor(g, a, look, t) && StackOk(g, a, stack) && stack != []
    requires r < |g.rules| && CompleteItem(g, r) in a[stack[|stack| - 1].stateno].items
    ensures t.ruleInfo[r].1 < |stack|
    ensures ValidTree(g, Branch(r, Minors(stack[|stack| - t.ruleInfo[r].1..]))) <==> |g.rules[r].rhs| < 256
  {
    HandleOnStack(g, a, stack, r);
    var size := t.ruleInfo[r].1;
    assert size == |g.rules[r].rhs| % 256;
    var ch := Minors(stack[|stack| - size..]);
    assert |Roots(g, ch)| == size;
  }

  /** A start rule is reduced only to accept, with the whole stack as its tree. */
  lemma AcceptKeeps(g: Grammar, a: Automaton, look: Lookaheads, t: Tables, depth: nat, input: seq<nat>, p: Parser,
                    r: nat)
    requires Generated(g, a, look, t) && RunOk(g, a, input, p) && p.stack != [] && p.pos < |input|
    requires ReduceOk(g, a, look, p.stack[|p.stack| - 1].stateno, input[p.pos], r) && g.IsStartRule(r)
    ensures Reduce(t, depth, p, r).Some?
    ensures var q := Reduce(t, depth, p, r).value; RunOk(g, a, input, q) && q.pos == p.pos
  {
    var size := |g.rules[r].rhs|;
    HandleOnStack(g, a, p.stack, r);
    RuleStart(g, a, p.stack, |p.stack| - size - 1, r);
    assert t.ruleInfo[r] == (g.start, size);
    var tree := Branch(r, Minors(p.stack[1..]));
    var e := Accept(tree, p.from, p.pos, p.discarded);
    assert LookAt(look, p.stack[|p.stack| - 1].stateno, CompleteItem(g, r)) <= {0};
    assert AcceptOk(g, input, e);
  }

  lemma LowerStackOk(g: Grammar, a: Automaton, stack: seq<Entry>, base: nat)
    requires StackOk(g, a, stack) && 0 < base <= |stack|
    ensures StackOk(g, a, stack[..base])
  {
    var low := stack[..base];
    forall i | 0 < i < |low| ensures Linked(a, low[i - 1], low[i]) {
      assert Linked(a, stack[i - 1], stack[i]);
    }
  }

  /** The goto push that follows a reduce. */
  function Gone(a: Automaton, p: Parser, base: nat, r: nat, lhs: nat): Entry
    requires 0 < base <= |p.stack| && p.stack[base - 1].stateno < |a| && lhs in a[p.stack[base - 1].stateno].trans
  {
    Entry(a[p.stack[base - 1].stateno].trans[lhs], lhs, Branch(r, Minors(p.stack[base..])))
  }

  lemma ReduceIs(g: Grammar, a: Automaton, look: Lookaheads, t: Tables, depth: nat, p: Parser, r: nat)
    requires Generated(g, a, look, t) && r < |g.rules| && |g.rules[r].rhs| < |p.stack|
    requires var s := p.stack[|p.stack| - |g.rules[r].rhs| - 1].stateno; s < |a| && g.rules[r].lhs in a[s].trans
    ensures var base := |p.stack| - |g.rules[r].rhs|;
            Reduce(t, depth, p, r) ==
              Some(Shift(depth, p.(stack := p.stack[..base]), Gone(a, p, base, r, g.rules[r].lhs)))
  {
    var s := p.stack[|p.stack| - |g.rules[r].rhs| - 1].stateno;
    GotoFound(g, a, look, t, s, r);
    assert t.ruleInfo[r] == (g.rules[r].lhs, |g.rules[r].rhs|) && t.nstate == |a|;
    hide Generated, Shift;
  }

  lemma GotoKeeps(g: Grammar, a: Automaton, depth: nat, input: seq<nat>, p: Parser, base: nat, e: Entry)
    requires RunOk(g, a, input, p) && 0 < base <= |p.stack|
    requires e.stateno < |a| && Linked(a, p.stack[base - 1], e) && ValidTree(g, e.minor) && Root(g, e.minor) == e.major
    requires Yield(e.minor) == Yields(Minors(p.stack[base..]))
    ensures RunOk(g, a, input, Shift(depth, p.(stack := p.stack[..base]), e))
  {
    LowerStackOk(g, a, p.stack, base);
    PushOk(g, a, p.stack[..base], e);
    KeptSplit(p.stack, base);
    KeptPush(p.stack[..base], e);
    hide StackOk, Kept, Subsequence;
  }

  /** Any other reduce the tables ask for finds its handle and its goto. */
  lemma ReduceKeeps(g: Grammar, a: Automaton, look: Lookaheads, t: Tables, depth: nat, input: seq<nat>, p: Parser,
                    r: nat)
    requires Generated(g, a, look, t) && RunOk(g, a, input, p) && p.stack != [] && p.pos < |input|
    requires ReduceOk(g, a, look, p.stack[|p.stack| - 1].stateno, input[p.pos], r) && !g.IsStartRule(r)
    ensures Reduce(t, depth, p, r).Some?
    ensures var q := Reduce(t, depth, p, r).value; RunOk(g, a, input, q) && q.pos == p.pos
  {
    var size, lhs := |g.rules[r].rhs|, g.rules[r].lhs;
    var base := |p.stack| - size;
    HandleOnStack(g, a, p.stack, r);
    RuleStart(g, a, p.stack, base - 1, r);
    GotoFound(g, a, look, t, p.stack[base - 1].stateno, r);
    ReduceIs(g, a, look, t, depth, p, r);
    GotoKeeps(g, a, depth, input, p, base, Gone(a, p, base, r, lhs));
  }

  lemma GotoFound(g: Grammar, a: Automaton, look: Lookaheads, t: Tables, s: nat, r: nat)
    requires Generated(g, a, look, t) && s < |a| && r < |g.rules| && g.rules[r].lhs in a[s].trans
    ensures FindReduceAction(t, s, g.rules[r].lhs) == Some(a[s].trans[g.rules[r].lhs])
    ensures a[s].trans[g.rules[r].lhs] < |a|
  {
    assert g.RuleOk(g.rules[r]) && StateOk(g, a, s);
  }

  /** Token 0 cannot be shifted. */
  lemma ShiftedIsToken(g: Grammar, a: Automaton, s: nat, tok: nat)
    requires g.WellFormed() && IsAutomaton(g, a) && s < |a| && tok in a[s].trans
    ensures tok > 0
  {
    assert StateOk(g, a, s);
    var it :| it in a[s].items && ShiftsOn(g, it, tok);
    assert g.RuleOk(g.rules[it.rule]);
  }

  ghost predicate OutcomeOk(g: Grammar, a: Automaton, input: seq<nat>, o: Outcome) {
    match o
    case Again(q) => RunOk(g, a, input, q)
    case Consumed(q) => RunOk(g, a, input, q.(pos := q.pos + 1))
    case Abort => false
  }

  lemma ShiftTurn(g: Grammar, a: Automaton, look: Lookaheads, t: Tables, depth: nat, input: seq<nat>, p: Parser, f: int)
    requires Generated(g, a, look, t) && RunOk(g, a, input, p) && p.stack != [] && p.pos < |input|
    requires input[p.pos] < g.nterminal
    requires FindShiftAction(t, p.stack[|p.stack| - 1].stateno, input[p.pos]) == Some(f) && 0 <= f < t.nstate
    requires TokenActionOk(g, a, look, t, p.stack[|p.stack| - 1].stateno, input[p.pos])
    ensures OutcomeOk(g, a, input, Iterate(t, depth, p, input[p.pos]))
  {
    ShiftedIsToken(g, a, p.stack[|p.stack| - 1].stateno, input[p.pos]);
    ShiftKeeps(g, a, depth, input, p, f);
    hide Generated, RunOk, FindShiftAction, Reduce, TokenActionOk;
  }

  lemma ReduceTurn(g: Grammar, a: Automaton, look: Lookaheads, t: Tables, depth: nat, input: seq<nat>, p: Parser,
                   f: int)
    requires Generated(g, a, look, t) && RunOk(g, a, input, p) && p.stack != [] && p.pos < |input|
    requires FindShiftAction(t, p.stack[|p.stack| - 1].stateno, input[p.pos]) == Some(f)
    requires t.nstate <= f < t.nstate + t.nrule
    requires ReduceOk(g, a, look, p.stack[|p.stack| - 1].stateno, input[p.pos], f - t.nstate)
    ensures OutcomeOk(g, a, input, Iterate(t, depth, p, input[p.pos]))
  {
    hide Generated, RunOk, FindShiftAction, Reduce, ReduceOk;
    var r := f - t.nstate;
    if g.IsStartRule(r) {
      AcceptKeeps(g, a, look, t, depth, input, p, r);
    } else {
      ReduceKeeps(g, a, look, t, depth, input, p, r);
    }
    ReduceEmpties(g, a, input, t, depth, p, r);
  }

  /** A parser whose stack is gone is in order at any position. */
  lemma ReduceEmpties(g: Grammar, a: Automaton, input: seq<nat>, t: Tables, depth: nat, p: Parser, r: nat)
    requires Reduce(t, depth, p, r).Some? && RunOk(g, a, input, Reduce(t, depth, p, r).value) && p.pos < |input|
    requires Reduce(t, depth, p, r).value.pos == p.pos
    ensures var q := Reduce(t, depth, p, r).value; q.stack == [] ==> RunOk(g, a, input, q.(pos := q.pos + 1))
  {
    hide Reduce;
  }

  lemma ErrorTurn(g: Grammar, a: Automaton, look: Lookaheads, t: Tables, depth: nat, input: seq<nat>, p: Parser)
    requires RunOk(g, a, input, p) && p.stack != [] && p.pos < |input|
    requires FindShiftAction(t, p.stack[|p.stack| - 1].stateno, input[p.pos]) == Some(ErrorAction(t))
    ensures OutcomeOk(g, a, input, Iterate(t, depth, p, input[p.pos]))
  {
    hide FindShiftAction, Reduce;
    var n := Iterate(t, depth, p, input[p.pos]).parser;
    if input[p.pos] != 0 {
      DiscardKeeps(g, a, input, p, n.(pos := n.pos + 1));
    }
  }

  lemma IterateKeeps(g: Grammar, a: Automaton, look: Lookaheads, t: Tables, depth: nat, input: seq<nat>, p: Parser)
    requires Generated(g, a, look, t) && RunOk(g, a, input, p) && p.stack != [] && p.pos < |input|
    requires input[p.pos] < g.nterminal
    ensures OutcomeOk(g, a, input, Iterate(t, depth, p, input[p.pos]))
  {
    var s := p.stack[|p.stack| - 1].stateno;
    assert TokenActionOk(g, a, look, t, s, input[p.pos]);
    hide Generated, RunOk, Iterate, OutcomeOk, ReduceOk, FindShiftAction;
    var f := FindShiftAction(t, s, input[p.pos]).value;
    if f < t.nstate {
      ShiftTurn(g, a, look, t, depth, input, p, f);
    } else if f < t.nstate + t.nrule {
      ReduceTurn(g, a, look, t, depth, input, p, f);
    } else {
      ErrorTurn(g, a, look, t, depth, input, p);
    }
  }

  /** One step of any run keeps the invariant and aborts nowhere. */
  lemma StepKeeps(g: Grammar, a: Automaton, look: Lookaheads, t: Tables,
                  depth: nat, input: seq<nat>, p: Parser)
    requires Generated(g, a, look, t) && RunOk(g, a, input, p)
    requires forall i :: 0 <= i < |input| ==> input[i] < g.nterminal
    ensures Step(t, depth, input, p).Some? && RunOk(g, a, input, Step(t, depth, input, p).value)
  {
    if p.pos < |input| {
      InitialisedOk(g, a, input, p);
      IterateKeeps(g, a, look, t, depth, input, Initialised(p));
    }
  }

  /** Every state of every run of a generated parser, however conflicts were
      resolved: no assertion has failed, the stack is a path of the automaton
      carrying the kept tokens, and every accepted tree was a parse. */
  lemma {:induction false} RunSound(g: Grammar, a: Automaton, look: Lookaheads, t: Tables,
                                    depth: nat, input: seq<nat>, p: Parser, n: nat)
    requires Generated(g, a, look, t) && RunOk(g, a, input, p)
    requires forall i :: 0 <= i < |input| ==> input[i] < g.nterminal
    ensures Run(t, depth, input, p, n).Some? && RunOk(g, a, input, Run(t, depth, input, p, n).value)
    decreases n
  {
    hide Step, Generated, RunOk;
    if n > 0 {
      StepKeeps(g, a, look, t, depth, input, p);
      RunSound(g, a, look, t, depth, input, Step(t, depth, input, p).value, n - 1);
    }
  }

  /** Accepting without throwing a token away means the input was a sentence. */
  lemma AcceptedIsSentence(g: Grammar, a: Automaton, look: Lookaheads, t: Tables,
                           depth: nat, input: seq<nat>, n: nat, i: nat)
    requires Generated(g, a, look, t)
    requires forall k :: 0 <= k < |input| ==> input[k] < g.nterminal
    requires Run(t, depth, input, FreshParser, n).Some?
    requires var log := Run(t, depth, input, FreshParser, n).value.log;
             i < |log| && log[i].Accept? && log[i].discarded == 0
    ensures var e := Run(t, depth, input, FreshParser, n).value.log[i];
            && e.from <= e.upto < |input| && input[e.upto] == 0
            && IsParse(g, e.tree, input[e.from..e.upto])
  {
    RunSound(g, a, look, t, depth, input, FreshParser, n);
    var e := Run(t, depth, input, FreshParser, n).value.log[i];
    assert AcceptOk(g, input, e);
    SubsequenceWhole(Yield(e.tree), input[e.from..e.upto]);
  }
}
