/** What the generator is meant to compute: the LR(0) automaton of a grammar and
    its propagated lookahead sets. */
module Automata {
  import opened Grammars
  import opened FirstSets

  /** A configuration without its bookkeeping: a rule and a dot. */
  datatype Item = Item(rule: nat, dot: nat)

  predicate ItemOk(g: Grammar, it: Item) {
    it.rule < |g.rules| && it.dot <= |g.rules[it.rule].rhs|
  }

  predicate CanShift(g: Grammar, it: Item) {
    it.rule < |g.rules| && it.dot < |g.rules[it.rule].rhs|
  }

  /** The symbol after the dot. */
  function Next(g: Grammar, it: Item): nat
    requires CanShift(g, it)
  {
    g.rules[it.rule].rhs[it.dot]
  }

  /** What follows the symbol after the dot. */
  function Rest(g: Grammar, it: Item): seq<nat>
    requires CanShift(g, it)
  {
    g.rules[it.rule].rhs[it.dot + 1..]
  }

  function Advance(it: Item): Item { Item(it.rule, it.dot + 1) }

  predicate ShiftsOn(g: Grammar, it: Item, x: nat) {
    CanShift(g, it) && Next(g, it) == x
  }

  predicate IsComplete(g: Grammar, it: Item) {
    it.rule < |g.rules| && it.dot == |g.rules[it.rule].rhs|
  }

  function CompleteItem(g: Grammar, r: nat): Item
    requires r < |g.rules|
  {
    Item(r, |g.rules[r].rhs|)
  }

  function StartItems(g: Grammar): set<Item> {
    set r | 0 <= r < |g.rules| && g.rules[r].lhs == g.start :: Item(r, 0)
  }

  function GotoBasis(g: Grammar, items: set<Item>, x: nat): set<Item> {
    set it | it in items && ShiftsOn(g, it, x) :: Advance(it)
  }

  /** `it` calls for the rules of the nonterminal after its dot. */
  predicate Calls(g: Grammar, it: Item, r: nat) {
    r < |g.rules| && ShiftsOn(g, it, g.rules[r].lhs)
  }

  ghost predicate ItemsClosed(g: Grammar, items: set<Item>) {
    forall it, r :: it in items && Calls(g, it, r) ==> Item(r, 0) in items
  }

  /** The least closed set of items above the basis. */
  ghost predicate IsClosure(g: Grammar, basis: set<Item>, items: set<Item>) {
    && basis <= items
    && ItemsClosed(g, items)
    && forall s :: basis <= s && ItemsClosed(g, s) ==> items <= s
  }

  datatype AState = AState(basis: set<Item>, items: set<Item>, trans: map<nat, nat>)

  type Automaton = seq<AState>

  ghost predicate TransOk(g: Grammar, a: Automaton, s: nat)
    requires s < |a|
  {
    && (forall it :: it in a[s].items && CanShift(g, it) ==> Next(g, it) in a[s].trans)
    && (forall x :: x in a[s].trans ==>
                      && (exists it :: it in a[s].items && ShiftsOn(g, it, x))
                      && a[s].trans[x] < |a|
                      && a[a[s].trans[x]].basis == GotoBasis(g, a[s].items, x))
  }

  ghost predicate StateOk(g: Grammar, a: Automaton, s: nat)
    requires s < |a|
  {
    && (forall it :: it in a[s].items ==> ItemOk(g, it))
    && IsClosure(g, a[s].basis, a[s].items)
    && TransOk(g, a, s)
  }

  /** The goto automaton over item sets, state 0 belonging to the start symbol. */
  ghost predicate IsAutomaton(g: Grammar, a: Automaton) {
    && |a| > 0
    && a[0].basis == StartItems(g)
    && forall s :: 0 <= s < |a| ==> StateOk(g, a, s)
  }

  ghost predicate DistinctBases(a: Automaton) {
    forall s, k :: 0 <= s < k < |a| ==> a[s].basis != a[k].basis
  }

  ghost predicate Entered(a: Automaton, k: nat)
    requires k < |a|
  {
    exists s, x :: 0 <= s < k && x in a[s].trans && a[s].trans[x] == k
  }

  /** Every state but the first is entered from a state numbered before it. */
  ghost predicate EnteredInOrder(a: Automaton) {
    forall k :: 0 < k < |a| ==> Entered(a, k)
  }

  /** The canonical collection: distinct, all reachable, numbered from state 0. */
  ghost predicate IsCanonical(g: Grammar, a: Automaton) {
    IsAutomaton(g, a) && DistinctBases(a) && EnteredInOrder(a)
  }

  /** The state reached over the symbols; |a| if there is no such path. */
  function Walk(a: Automaton, s: nat, xs: seq<nat>): nat
    decreases |xs|
  {
    if xs == [] then s
    else if s < |a| && xs[0] in a[s].trans then Walk(a, a[s].trans[xs[0]], xs[1..])
    else |a|
  }

  lemma {:induction false} WalkAppend(a: Automaton, s: nat, xs: seq<nat>, x: nat)
    ensures var k := Walk(a, s, xs);
            Walk(a, s, xs + [x]) == if k < |a| && x in a[k].trans then a[k].trans[x] else |a|
    decreases |xs|
  {
    if xs == [] {
      assert [] + [x] == [x] && [x][1..] == [];
    } else {
      assert (xs + [x])[1..] == xs[1..] + [x];
      if s < |a| && xs[0] in a[s].trans {
        WalkAppend(a, a[s].trans[xs[0]], xs[1..], x);
      }
    }
  }

  ghost predicate Reached(a: Automaton, s: nat) { exists xs :: Walk(a, 0, xs) == s }

  /** Every state lies on a path from the first one. */
  ghost predicate AllReached(a: Automaton) {
    forall s :: 0 <= s < |a| ==> Reached(a, s)
  }

  lemma {:induction false} CanonicalReached(g: Grammar, a: Automaton, k: nat)
    requires IsCanonical(g, a) && k < |a|
    ensures Reached(a, k)
    decreases k
  {
    hide IsAutomaton;
    if k == 0 {
      assert Walk(a, 0, []) == 0;
    } else {
      assert Entered(a, k);
      var s, x :| 0 <= s < k && x in a[s].trans && a[s].trans[x] == k;
      CanonicalReached(g, a, s);
      var xs :| Walk(a, 0, xs) == s;
      WalkAppend(a, 0, xs, x);
    }
  }

  // ---------------------------------------------------------------------------
  // Lookahead sets

  type Lookaheads = seq<map<Item, set<nat>>>

  function LookAt(look: Lookaheads, s: nat, it: Item): set<nat> {
    if s < |look| && it in look[s] then look[s][it] else {}
  }

  ghost predicate LookLocal(g: Grammar, lambda: set<nat>, first: seq<set<nat>>, look: Lookaheads, s: nat, it: Item,
                            r: nat)
    requires Calls(g, it, r)
  {
    && FirstOfSeq(g, lambda, first, Rest(g, it)) <= LookAt(look, s, Item(r, 0))
    && (Transparent(g, lambda, Rest(g, it)) ==> LookAt(look, s, it) <= LookAt(look, s, Item(r, 0)))
  }

  ghost predicate LookClosed(g: Grammar, lambda: set<nat>, first: seq<set<nat>>, a: Automaton, look: Lookaheads) {
    && |look| == |a|
    && (forall it :: it in StartItems(g) ==> 0 in LookAt(look, 0, it))
    && (forall s, it, r :: 0 <= s < |a| && it in a[s].items && Calls(g, it, r) ==>
      LookLocal(g, lambda, first, look, s, it, r))
    && (forall s, it :: 0 <= s < |a| && it in a[s].items && CanShift(g, it) && Next(g, it) in a[s].trans ==>
                          LookAt(look, s, it) <= LookAt(look, a[s].trans[Next(g, it)], Advance(it)))
  }

  ghost predicate LookBelow(a: Automaton, l: Lookaheads, m: Lookaheads) {
    forall s, it :: 0 <= s < |a| && it in a[s].items ==> LookAt(l, s, it) <= LookAt(m, s, it)
  }

  /** The least lookahead sets: `$` behind the start rules, what can follow a
      nonterminal inside a rule, and everything those pass on. */
  ghost predicate IsLook(g: Grammar, lambda: set<nat>, first: seq<set<nat>>, a: Automaton, look: Lookaheads) {
    && LookClosed(g, lambda, first, a, look)
    && forall l :: LookClosed(g, lambda, first, a, l) ==> LookBelow(a, look, l)
  }

  /** State `s` calls for reducing the completed `it` before token `t`. */
  predicate Reduces(g: Grammar, a: Automaton, look: Lookaheads, s: nat, it: Item, t: nat) {
    s < |a| && it in a[s].items && IsComplete(g, it) && t in LookAt(look, s, it)
  }

  /** No (state, token) has two candidate actions. */
  ghost predicate ConflictFree(g: Grammar, a: Automaton, look: Lookaheads) {
    && (forall s: nat, it, t :: Reduces(g, a, look, s, it, t) ==> t !in a[s].trans)
    && (forall s: nat, it, jt, t :: Reduces(g, a, look, s, it, t) && Reduces(g, a, look, s, jt, t) ==> it == jt)
  }

  // ---------------------------------------------------------------------------
  // Consequences

  /** A closure member outside the basis starts a rule some member calls for. */
  lemma ClosureSupported(g: Grammar, basis: set<Item>, items: set<Item>, it: Item)
    requires IsClosure(g, basis, items) && it in items && it !in basis
    ensures it.dot == 0 && exists j :: j in items && Calls(g, j, it.rule)
  {
    var s := set i | i in items && (i in basis || (i.dot == 0 && exists j :: j in items && Calls(g, j, i.rule)));
    assert ItemsClosed(g, s);
    assert items <= s;
  }

  lemma StartLookIsEnd(g: Grammar, lambda: set<nat>, first: seq<set<nat>>, a: Automaton, look: Lookaheads, s: nat,
                       it: Item)
    requires g.StartNotOnRhs() && IsLook(g, lambda, first, a, look)
    requires s < |a| && it in a[s].items && g.IsStartRule(it.rule)
    ensures LookAt(look, s, it) <= {0}
  {
    var l: Lookaheads := seq(|look|, k requires 0 <= k < |look| =>
      map i | i in look[k] :: if g.IsStartRule(i.rule) then look[k][i] * {0} else look[k][i]);
    forall k: nat, i: Item
      ensures LookAt(l, k, i) == if g.IsStartRule(i.rule) then LookAt(look, k, i) * {0} else LookAt(look, k, i)
    {
    }
    forall k, i, r | 0 <= k < |a| && i in a[k].items && Calls(g, i, r) ensures LookLocal(g, lambda, first, l, k, i, r) {
      assert LookLocal(g, lambda, first, look, k, i, r);
      assert !g.IsStartRule(r);
    }
    assert LookClosed(g, lambda, first, a, l);
    assert LookBelow(a, look, l);
  }
}
