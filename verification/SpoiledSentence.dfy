/** Why throwing a token away is not always leaving it out: with default reductions, a token
    in error can make the parser reduce first. For the grammar here, which has no conflicts
    and no empty rules, X is a sentence, and yet X with another token behind it is not
    accepted, although that token is thrown away. */
module SpoiledSentence {
  import opened Options
  import opened Grammars
  import opened FirstSets
  import opened Automata
  import opened ActionLists
  import opened Champions
  import opened Driver
  import opened Soundness
  import opened Completeness
  import opened Generator
  import opened EndToEnd
  import opened NoDetours
  import opened Recovery

  const X: nat := 1
  const Y: nat := 2
  const W: nat := 3
  const Z: nat := 4
  const S: nat := 5
  const A: nat := 6
  const B: nat := 7

  /** s ::= a Y.   s ::= a W.   s ::= b.   a ::= X.   b ::= X.   The token Z is in no rule. */
  const G := Grammar(
    5,
    [Symbol(-1, UNK), Symbol(-1, UNK), Symbol(-1, UNK), Symbol(-1, UNK), Symbol(-1, UNK), Symbol(-1, UNK),
     Symbol(-1, UNK), Symbol(-1, UNK)],
    [Rule(S, [A, Y], None), Rule(S, [A, W], None), Rule(S, [B], None), Rule(A, [X], None), Rule(B, [X], None)],
    S)

  lemma GrammarOk()
    ensures G.WellFormed() && G.StartNotOnRhs() && G.RhsFits() && ExplicitEmpty(G) == {}
  {
    forall r | 0 <= r < |G.rules| ensures G.rules[r].rhs != [] && G.RuleOk(G.rules[r]) {
      assert r == 0 || r == 1 || r == 2 || r == 3 || r == 4;
    }
  }

  lemma ScansOk()
    ensures ScansComplete(G)
  {
    hide ScansComplete, Nullable;
    GrammarOk();
    var none := ExplicitEmpty(G);
    forall r | 0 <= r < |G.rules| ensures exists i :: 0 <= i < |G.rules[r].rhs| && G.rules[r].rhs[i] !in none {
      assert r == 0 || r == 1 || r == 2 || r == 3 || r == 4;
      assert G.rules[r].rhs[0] !in none;
    }
    ScansCompleteWhenExplicit(G);
  }

  const Parse := Branch(2, [Branch(4, [Leaf(X)])])

  lemma IsSentence()
    ensures IsParse(G, Parse, [X]) && TokensOnly(G, [X]) && StackNeed(Parse) == 2
  {
    var b := Branch(4, [Leaf(X)]);
    assert Roots(G, [Leaf(X)]) == [X] && Roots(G, [b]) == [B];
    YieldsOne(Leaf(X));
    YieldsOne(b);
    assert [b][1..] == [] && [Leaf(X)][1..] == [];
    assert NeedSeq([Leaf(X)]) == 1 && NeedSeq([b]) == 1;
  }

  // ---------------------------------------------------------------------------
  // The states

  const I0 := {Item(0, 0), Item(1, 0), Item(2, 0), Item(3, 0), Item(4, 0)}
  const IX := {Item(3, 1), Item(4, 1)}
  const IA := {Item(0, 1), Item(1, 1)}
  const IB := {Item(2, 1)}
  const IY := {Item(0, 2)}
  const IW := {Item(1, 2)}

  predicate Expected(items: set<Item>) {
    items == I0 || items == IX || items == IA || items == IB || items == IY || items == IW
  }

  /** The symbol after the dot, written out. */
  function Shifts(it: Item): Option<nat> {
    match it
    case Item(0, 0) => Some(A)
    case Item(0, 1) => Some(Y)
    case Item(1, 0) => Some(A)
    case Item(1, 1) => Some(W)
    case Item(2, 0) => Some(B)
    case Item(3, 0) => Some(X)
    case Item(4, 0) => Some(X)
    case _ => None
  }

  lemma ShiftsIs(it: Item, x: nat)
    ensures ShiftsOn(G, it, x) <==> Shifts(it) == Some(x)
  {
    assert it.rule in {0, 1, 2, 3, 4} || it.rule >= 5;
  }

  lemma CallsOf(it: Item, r: nat)
    requires Calls(G, it, r)
    ensures (it in {Item(0, 0), Item(1, 0)} && r == 3) || (it == Item(2, 0) && r == 4)
  {
    ShiftsIs(it, G.rules[r].lhs);
    assert r in {0, 1, 2, 3, 4};
  }

  lemma ExpectedClosed(k: set<Item>)
    requires Expected(k)
    ensures ItemsClosed(G, k)
  {
    forall it, r: nat | it in k && Calls(G, it, r) ensures Item(r, 0) in k {
      CallsOf(it, r);
    }
  }

  lemma ClosureLast(basis: set<Item>, items: set<Item>)
    requires IsClosure(G, basis, items) && Expected(basis)
    ensures items == basis
  {
    ExpectedClosed(basis);
  }

  /** What a state shifts, and where that leads. */
  lemma Moves(b: Automaton, s: nat, x: nat)
    requires IsAutomaton(G, b) && s < |b|
    ensures x in b[s].trans <==> exists it :: it in b[s].items && Shifts(it) == Some(x)
    ensures x in b[s].trans ==> b[s].trans[x] < |b|
    ensures x in b[s].trans ==> var k := b[s].trans[x];
              IsClosure(G, set it | it in b[s].items && Shifts(it) == Some(x) :: Advance(it), b[k].items)
  {
    assert StateOk(G, b, s);
    hide IsClosure, ShiftsOn, Shifts;
    forall it | it in b[s].items ensures ShiftsOn(G, it, x) <==> Shifts(it) == Some(x) {
      ShiftsIs(it, x);
    }
    forall it | it in b[s].items && ShiftsOn(G, it, x) ensures x in b[s].trans {
      ShiftsMeans(it, x);
    }
    if x in b[s].trans {
      assert StateOk(G, b, b[s].trans[x]);
      assert GotoBasis(G, b[s].items, x) == set it | it in b[s].items && Shifts(it) == Some(x) :: Advance(it);
    }
  }

  lemma ShiftsMeans(it: Item, x: nat)
    requires ShiftsOn(G, it, x)
    ensures CanShift(G, it) && Next(G, it) == x
  {
  }

  lemma Leads(b: Automaton, s: nat, x: nat, basis: set<Item>)
    requires IsAutomaton(G, b) && s < |b| && Expected(basis) && basis != {}
    requires basis == set it | it in b[s].items && Shifts(it) == Some(x) :: Advance(it)
    ensures x in b[s].trans && b[s].trans[x] < |b| && b[b[s].trans[x]].items == basis
  {
    hide IsAutomaton, IsClosure, Expected, Shifts;
    Moves(b, s, x);
    var it :| it in basis;
    ClosureLast(basis, b[b[s].trans[x]].items);
  }

  lemma From0(b: Automaton, s: nat)
    requires IsAutomaton(G, b) && s < |b| && b[s].items == I0
    ensures forall x: nat :: x in b[s].trans <==> x == X || x == A || x == B
    ensures b[s].trans[X] < |b| && b[b[s].trans[X]].items == IX
    ensures b[s].trans[A] < |b| && b[b[s].trans[A]].items == IA
    ensures b[s].trans[B] < |b| && b[b[s].trans[B]].items == IB
  {
    hide IsAutomaton;
    forall x: nat ensures x in b[s].trans <==> x == X || x == A || x == B {
      Moves(b, s, x);
      assert Item(0, 0) in I0 && Item(2, 0) in I0 && Item(3, 0) in I0;
    }
    assert (set it | it in I0 && Shifts(it) == Some(X) :: Advance(it)) == IX;
    assert (set it | it in I0 && Shifts(it) == Some(A) :: Advance(it)) == IA;
    assert (set it | it in I0 && Shifts(it) == Some(B) :: Advance(it)) == IB;
    Leads(b, s, X, IX);
    Leads(b, s, A, IA);
    Leads(b, s, B, IB);
  }

  lemma FromA(b: Automaton, s: nat)
    requires IsAutomaton(G, b) && s < |b| && b[s].items == IA
    ensures forall x: nat :: x in b[s].trans <==> x == Y || x == W
    ensures b[s].trans[Y] < |b| && b[b[s].trans[Y]].items == IY
    ensures b[s].trans[W] < |b| && b[b[s].trans[W]].items == IW
  {
    hide IsAutomaton;
    forall x: nat ensures x in b[s].trans <==> x == Y || x == W {
      Moves(b, s, x);
      assert Item(0, 1) in IA && Item(1, 1) in IA;
    }
    assert (set it | it in IA && Shifts(it) == Some(Y) :: Advance(it)) == IY;
    assert (set it | it in IA && Shifts(it) == Some(W) :: Advance(it)) == IW;
    Leads(b, s, Y, IY);
    Leads(b, s, W, IW);
  }

  lemma FromLast(b: Automaton, s: nat)
    requires IsAutomaton(G, b) && s < |b| && b[s].items in {IX, IB, IY, IW}
    ensures forall x: nat :: x !in b[s].trans
  {
    hide IsAutomaton, IsClosure;
    forall x: nat ensures x !in b[s].trans {
      Moves(b, s, x);
    }
  }

  lemma FirstState(b: Automaton)
    requires IsAutomaton(G, b)
    ensures |b| > 0 && b[0].items == I0
  {
    assert StateOk(G, b, 0);
    assert StartItems(G) == {Item(0, 0), Item(1, 0), Item(2, 0)} by {
      assert G.rules[0].lhs == S && G.rules[1].lhs == S && G.rules[2].lhs == S;
      forall it ensures it in StartItems(G) <==> it in {Item(0, 0), Item(1, 0), Item(2, 0)} {
      }
    }
    ExpectedClosed(I0);
    assert Item(0, 0) in b[0].items && Calls(G, Item(0, 0), 3);
    assert Item(2, 0) in b[0].items && Calls(G, Item(2, 0), 4);
  }

  /** There are no other states. */
  lemma {:induction false} OnlyThese(b: Automaton, s: nat, xs: seq<nat>)
    requires IsAutomaton(G, b) && s < |b| && Expected(b[s].items) && Walk(b, s, xs) < |b|
    ensures Expected(b[Walk(b, s, xs)].items)
    decreases |xs|
  {
    hide IsAutomaton;
    if xs != [] {
      if b[s].items == I0 { From0(b, s); } else if b[s].items == IA { FromA(b, s); } else { FromLast(b, s); }
      OnlyThese(b, b[s].trans[xs[0]], xs[1..]);
    }
  }

  // ---------------------------------------------------------------------------
  // Lookahead sets

  function Bound(it: Item): set<nat> { if it.rule == 3 then {Y, W} else {0} }

  function BoundLook(b: Automaton): (m: Lookaheads) {
    seq(|b|, s requires 0 <= s < |b| => map it | it in b[s].items :: Bound(it))
  }

  lemma RestsOf(it: Item, first: seq<set<nat>>)
    ensures it == Item(0, 0) ==> Rest(G, it) == [Y] && FirstOfSeq(G, {}, first, [Y]) == {Y} && !Transparent(G, {}, [Y])
    ensures it == Item(1, 0) ==> Rest(G, it) == [W] && FirstOfSeq(G, {}, first, [W]) == {W} && !Transparent(G, {}, [W])
    ensures it == Item(2, 0) ==> Rest(G, it) == []
  {
    assert [A, Y][1..] == [Y] && [A, W][1..] == [W] && [B][1..] == [];
    assert [Y][0] == Y && [W][0] == W;
  }

  lemma BoundLocal(b: Automaton, first: seq<set<nat>>, s: nat, it: Item, r: nat)
    requires IsAutomaton(G, b) && s < |b| && it in b[s].items && Calls(G, it, r)
    ensures LookLocal(G, {}, first, BoundLook(b), s, it, r)
  {
    assert StateOk(G, b, s) && Item(r, 0) in b[s].items;
    CallsOf(it, r);
    RestsOf(it, first);
  }

  lemma BoundClosed(b: Automaton, first: seq<set<nat>>)
    requires IsAutomaton(G, b)
    ensures LookClosed(G, {}, first, b, BoundLook(b))
  {
    hide LookLocal;
    FirstState(b);
    var m := BoundLook(b);
    forall s, it, r | 0 <= s < |b| && it in b[s].items && Calls(G, it, r)
      ensures LookLocal(G, {}, first, m, s, it, r)
    {
      BoundLocal(b, first, s, it, r);
    }
    forall s, it | 0 <= s < |b| && it in b[s].items && CanShift(G, it) && Next(G, it) in b[s].trans
      ensures LookAt(m, s, it) <= LookAt(m, b[s].trans[Next(G, it)], Advance(it))
    {
      assert StateOk(G, b, s);
      var k := b[s].trans[Next(G, it)];
      assert Advance(it) in b[k].basis && StateOk(G, b, k);
    }
  }

  lemma Upper(b: Automaton, first: seq<set<nat>>, l: Lookaheads, s: nat, it: Item)
    requires IsAutomaton(G, b) && IsLook(G, ExplicitEmpty(G), first, b, l) && s < |b| && it in b[s].items
    ensures LookAt(l, s, it) <= Bound(it)
  {
    GrammarOk();
    BoundClosed(b, first);
    hide LookClosed, IsAutomaton;
    assert LookAt(l, s, it) <= LookAt(BoundLook(b), s, it);
  }

  /** The tokens that win for the two rules after X. */
  lemma Lower(b: Automaton, first: seq<set<nat>>, l: Lookaheads)
    requires IsAutomaton(G, b) && LookClosed(G, ExplicitEmpty(G), first, b, l)
    ensures |b| > 0 && X in b[0].trans
    ensures Y in LookAt(l, b[0].trans[X], Item(3, 1)) && W in LookAt(l, b[0].trans[X], Item(3, 1))
  {
    GrammarOk();
    FirstState(b);
    From0(b, 0);
    RestsOf(Item(0, 0), first);
    RestsOf(Item(1, 0), first);
    assert Item(0, 0) in I0 && Item(1, 0) in I0 && Item(3, 0) in I0;
    assert LookLocal(G, {}, first, l, 0, Item(0, 0), 3) by { assert Calls(G, Item(0, 0), 3); }
    assert LookLocal(G, {}, first, l, 0, Item(1, 0), 3) by { assert Calls(G, Item(1, 0), 3); }
    ShiftsIs(Item(3, 0), X);
    assert LookAt(l, 0, Item(3, 0)) <= LookAt(l, b[0].trans[X], Advance(Item(3, 0)));
  }

  /** The completed items, written out. */
  lemma CompleteOf(it: Item)
    ensures IsComplete(G, it) <==> it in {Item(0, 2), Item(1, 2), Item(2, 1), Item(3, 1), Item(4, 1)}
  {
    assert it.rule in {0, 1, 2, 3, 4} || it.rule >= 5;
  }

  lemma NoConflicts(first: seq<set<nat>>, a: Automaton, look: Lookaheads)
    requires IsLalr(G, first, a, look)
    ensures ConflictFree(G, a, look)
  {
    hide IsLook, IsFirst, Expected, LookAt, IsAutomaton;
    forall s: nat, it, jt, tok | Reduces(G, a, look, s, it, tok) && Reduces(G, a, look, s, jt, tok)
      ensures tok !in a[s].trans && it == jt
    {
      CanonicalReached(G, a, s);
      var xs :| Walk(a, 0, xs) == s;
      FirstState(a);
      assert Expected(I0) by { FirstExpected(); }
      OnlyThese(a, 0, xs);
      Upper(a, first, look, s, it);
      Upper(a, first, look, s, jt);
      OneAction(a, s, it, jt, tok);
    }
  }

  lemma FirstExpected()
    ensures Expected(I0)
  {
  }

  lemma OneAction(a: Automaton, s: nat, it: Item, jt: Item, tok: nat)
    requires IsAutomaton(G, a) && s < |a| && Expected(a[s].items) && it in a[s].items && jt in a[s].items
    requires IsComplete(G, it) && IsComplete(G, jt) && tok in Bound(it) && tok in Bound(jt)
    ensures tok !in a[s].trans && it == jt
  {
    hide IsAutomaton, IsComplete;
    CompleteOf(it);
    CompleteOf(jt);
    assert a[s].items != I0 && a[s].items != IA;
    FromLast(a, s);
  }

  // ---------------------------------------------------------------------------
  // What the tables say

  /** X is shifted; on Z the first rule for X is reduced; after that, Z and the end are
      errors. */
  ghost predicate Spoils(t: Tables, x: nat, a: nat) {
    && t.nrule == |t.ruleInfo| == 5 && t.ruleInfo[3] == (A, 1) && x < t.nstate && a < t.nstate
    && FindShiftAction(t, 0, X) == Some(x) && FindShiftAction(t, x, Z) == Some(t.nstate + 3)
    && FindReduceAction(t, 0, A) == Some(a)
    && FindShiftAction(t, a, Z) == Some(ErrorAction(t)) && FindShiftAction(t, a, 0) == Some(ErrorAction(t))
  }

  /** The rules that can win a token in a state are those completed there. */
  lemma WinnersComplete(b: Automaton, l: Lookaheads, s: nat, tok: nat, q: nat)
    requires G.WellFormed() && s < |b| && tok in Wins(G, b, l, s, q)
    ensures q < |G.rules| && Reduces(G, b, l, s, CompleteItem(G, q), tok)
  {
    hide Champion;
    ChampionReduces(G, b, l, s, tok, |G.rules|);
  }

  lemma NoCompleted(b: Automaton, l: Lookaheads, s: nat, tok: nat)
    requires G.WellFormed() && s < |b| && tok < G.nterminal && tok !in b[s].trans
    requires forall q: nat :: q < |G.rules| ==> !Reduces(G, b, l, s, CompleteItem(G, q), tok)
    ensures Champion(G, b, l, s, tok, |G.rules|).None?
  {
    ChampionExists(G, b, l, s, tok, |G.rules|);
  }

  /** In the state after a, nothing is completed: its default is an error. */
  lemma AfterA(first: seq<set<nat>>, b: Automaton, l: Lookaheads, t: Tables, a: nat, tok: nat)
    requires Delivered(G, first, b, l, t) && DefaultsOk(G, b, l, t, true) && Generated(G, b, l, t)
    requires a < |b| && b[a].items == IA && (tok == Z || tok == 0)
    ensures FindShiftAction(t, a, tok) == Some(ErrorAction(t))
  {
    hide IsLook, TablesFor, IsAutomaton, TablesChoose, GotosOnly, FindShiftAction, Champion, AllReached, Wins;
    FromA(b, a);
    forall q: nat, k | q < |G.rules| ensures !Reduces(G, b, l, a, CompleteItem(G, q), k) {
      CompleteOf(CompleteItem(G, q));
    }
    NoCompleted(b, l, a, tok);
    forall r ensures !Commonest(G, b, l, a, r) {
      if k :| k in Wins(G, b, l, a, r) { WinnersComplete(b, l, a, k, r); }
    }
    assert IsDefault(G, b, l, a, true, t.dflt[a]);
    assert t.nstate == |b| && t.nrule == |G.rules| by { Sizes(b, l, t); }
  }

  lemma Sizes(b: Automaton, l: Lookaheads, t: Tables)
    requires Generated(G, b, l, t)
    ensures t.nstate == |b| > 0 && t.nrule == |G.rules| == |t.ruleInfo| && t.ruleInfo[3] == (A, 1) && GotosOk(G, b, t)
  {
    hide TokenActionOk, StateOk, GotosOk;
    assert |G.rules[3].rhs| == 1;
  }

  /** After X, the rule with two tokens is the default, not the one with one. */
  lemma AfterX(first: seq<set<nat>>, b: Automaton, l: Lookaheads, t: Tables, x: nat)
    requires Delivered(G, first, b, l, t) && DefaultsOk(G, b, l, t, true) && Generated(G, b, l, t)
    requires IsLook(G, ExplicitEmpty(G), first, b, l)
    requires x < |b| && b[x].items == IX && Y in LookAt(l, x, Item(3, 1)) && W in LookAt(l, x, Item(3, 1))
    ensures FindShiftAction(t, x, Z) == Some(t.nstate + 3)
  {
    hide IsLook, TablesFor, IsAutomaton, TablesChoose, GotosOnly, FindShiftAction, Champion, AllReached, Wins, LookAt;
    FromLast(b, x);
    Upper(b, first, l, x, Item(3, 1));
    Upper(b, first, l, x, Item(4, 1));
    WinsAfterX(b, l, x);
    Sizes(b, l, t);
    forall q: nat | q < |G.rules| ensures !Reduces(G, b, l, x, CompleteItem(G, q), Z) {
      CompleteOf(CompleteItem(G, q));
    }
    NoCompleted(b, l, x, Z);
    assert Commonest(G, b, l, x, 3);
    assert IsDefault(G, b, l, x, true, t.dflt[x]);
    forall r: nat | Commonest(G, b, l, x, r) ensures r == 3 {
    }
  }

  lemma WinsAfterX(b: Automaton, l: Lookaheads, x: nat)
    requires G.WellFormed() && x < |b| && b[x].items == IX && (forall y: nat :: y !in b[x].trans)
    requires Y in LookAt(l, x, Item(3, 1)) && W in LookAt(l, x, Item(3, 1))
    requires LookAt(l, x, Item(3, 1)) <= {Y, W} && LookAt(l, x, Item(4, 1)) <= {0}
    ensures !G.IsStartRule(3) && |Wins(G, b, l, x, 3)| >= 2
    ensures forall q: nat :: q != 3 ==> |Wins(G, b, l, x, q)| < 2
  {
    hide Champion, Wins;
    assert G.rules[3].lhs == A;
    assert CompleteItem(G, 3) == Item(3, 1) && CompleteItem(G, 4) == Item(4, 1);
    forall tok | tok == Y || tok == W ensures tok in Wins(G, b, l, x, 3) {
      ChampionExists(G, b, l, x, tok, |G.rules|);
      ChampionReduces(G, b, l, x, tok, |G.rules|);
      ChampionShifts(G, b, l, x, tok, |G.rules|);
      var c := Champion(G, b, l, x, tok, |G.rules|).value;
      CompleteOf(CompleteItem(G, c.arg));
      assert c == Action(tok, REDUCE, 3);
      Won(b, l, x, tok, 3);
    }
    TwoIn(Wins(G, b, l, x, 3), Y, W);
    forall q: nat | q != 3 ensures |Wins(G, b, l, x, q)| < 2 {
      forall tok | tok in Wins(G, b, l, x, q) ensures tok == 0 {
        WinnersComplete(b, l, x, tok, q);
        CompleteOf(CompleteItem(G, q));
      }
      OnlyOne(Wins(G, b, l, x, q));
    }
  }

  lemma Won(b: Automaton, l: Lookaheads, s: nat, tok: nat, r: nat)
    requires G.WellFormed() && s < |b| && tok < G.nterminal
    requires Champion(G, b, l, s, tok, |G.rules|) == Some(Action(tok, REDUCE, r))
    ensures tok in Wins(G, b, l, s, r)
  {
    hide Champion;
  }

  lemma TwoIn(s: set<nat>, x: nat, y: nat)
    requires x in s && y in s && x != y
    ensures |s| >= 2
  {
    assert |s - {x}| == |s| - 1 && y in s - {x};
  }

  lemma OnlyOne(s: set<nat>)
    requires forall x :: x in s ==> x == 0
    ensures |s| < 2
  {
    if 0 in s { assert s == {0}; } else { assert s == {}; }
  }

  lemma SpoilsHolds(first: seq<set<nat>>, b: Automaton, l: Lookaheads, t: Tables) returns (x: nat, a: nat)
    requires Delivered(G, first, b, l, t) && DefaultsOk(G, b, l, t, true) && Generated(G, b, l, t)
    ensures Spoils(t, x, a)
  {
    hide DefaultsOk, FindShiftAction, FindReduceAction, Champion, LookAt, TablesFor, StateOk, AllReached;
    FirstState(b);
    From0(b, 0);
    x, a := b[0].trans[X], b[0].trans[A];
    Lower(b, first, l);
    AfterX(first, b, l, t, x);
    AfterA(first, b, l, t, a, Z);
    AfterA(first, b, l, t, a, 0);
    Sizes(b, l, t);
    assert FindShiftAction(t, 0, X) == Some(x) by { AtStart(first, b, l, t); }
  }

  lemma AtStart(first: seq<set<nat>>, b: Automaton, l: Lookaheads, t: Tables)
    requires Delivered(G, first, b, l, t) && |b| > 0 && b[0].items == I0 && X in b[0].trans
    ensures FindShiftAction(t, 0, X) == Some(b[0].trans[X])
  {
    hide IsLook, TablesFor, IsAutomaton, GotosOnly, FindShiftAction, Champion, AllReached, DefaultsAnswer, Generated;
    ChampionExists(G, b, l, 0, X, |G.rules|);
    ChampionReduces(G, b, l, 0, X, |G.rules|);
    ChampionShifts(G, b, l, 0, X, |G.rules|);
    var c := Champion(G, b, l, 0, X, |G.rules|).value;
    if c.typ != SHIFT { CompleteOf(CompleteItem(G, c.arg)); }
  }

  // ---------------------------------------------------------------------------
  // The runs

  const Bottom := Entry(0, 0, Leaf(0))

  function OnX(x: nat): Parser { Parser([Bottom, Entry(x, X, Leaf(X))], -2, [], 1, 0, 0) }

  function OnA(a: nat): Parser { Parser([Bottom, Entry(a, A, Branch(3, [Leaf(X)]))], -2, [], 1, 0, 0) }

  function Dropped(a: nat): Parser { Parser(OnA(a).stack, 3, [SyntaxError(Z)], 2, 0, 1) }

  const Failed := Parser([], 3, [SyntaxError(Z), ParseFailed], 3, 0, 1)

  lemma ShiftX(t: Tables, depth: nat, x: nat, a: nat)
    requires Spoils(t, x, a) && depth >= 2
    ensures Step(t, depth, [X, Z, 0], FreshParser) == Some(OnX(x))
  {
    hide FindShiftAction, FindReduceAction;
    assert [Bottom] + [Entry(x, X, Leaf(X))] == OnX(x).stack;
  }

  lemma ReduceX(t: Tables, depth: nat, x: nat, a: nat)
    requires Spoils(t, x, a) && depth >= 2
    ensures Step(t, depth, [X, Z, 0], OnX(x)) == Some(OnA(a))
  {
    hide FindShiftAction, FindReduceAction;
    var s := OnX(x).stack;
    assert s[..1] == [Bottom] && Minors(s[1..]) == [Leaf(X)];
    assert s[..1] + [OnA(a).stack[1]] == OnA(a).stack;
  }

  lemma DropAndFail(t: Tables, depth: nat, x: nat, a: nat)
    requires Spoils(t, x, a) && depth >= 2
    ensures Step(t, depth, [X, Z, 0], OnA(a)) == Some(Dropped(a))
    ensures Step(t, depth, [X, Z, 0], Dropped(a)) == Some(Failed)
  {
    hide FindShiftAction, FindReduceAction;
    assert OnA(a).log + [SyntaxError(Z)] == Dropped(a).log && Dropped(a).log + [ParseFailed] == Failed.log;
  }

  /** Four steps: shift, reduce, throw Z away, fail. */
  lemma SpoiledRun(t: Tables, depth: nat, x: nat, a: nat)
    requires Spoils(t, x, a) && depth >= 2
    ensures Run(t, depth, [X, Z, 0], FreshParser, 4) == Some(Failed)
  {
    hide Step, Spoils;
    ShiftX(t, depth, x, a);
    ReduceX(t, depth, x, a);
    DropAndFail(t, depth, x, a);
    FourSteps(t, depth, [X, Z, 0], FreshParser, OnX(x), OnA(a), Dropped(a), Failed);
  }

  lemma FourSteps(t: Tables, depth: nat, input: seq<nat>, p: Parser, p1: Parser, p2: Parser, p3: Parser, p4: Parser)
    requires Step(t, depth, input, p) == Some(p1) && Step(t, depth, input, p1) == Some(p2)
    requires Step(t, depth, input, p2) == Some(p3) && Step(t, depth, input, p3) == Some(p4)
    ensures Run(t, depth, input, p, 4) == Some(p4)
  {
    hide Step;
    assert Run(t, depth, input, p3, 1) == Some(p4) by { assert Run(t, depth, input, p4, 0) == Some(p4); }
    assert Run(t, depth, input, p2, 2) == Some(p4);
    assert Run(t, depth, input, p1, 3) == Some(p4);
  }

  /** The run on X, Z and the end throws Z away and accepts nothing. */
  ghost predicate Refused(t: Tables, depth: nat) {
    Run(t, depth, [X, Z, 0], FreshParser, 4) == Some(Failed)
  }

  ghost predicate Accepted(t: Tables, depth: nat) { exists n :: AcceptsWith(t, depth, [X], Parse, n) }

  lemma XIsAccepted(t: Tables, depth: nat)
    requires ExactParser(G, t) && depth >= 2
    ensures Accepted(t, depth)
  {
    hide AcceptsWith, IsParse, StackNeed;
    IsSentence();
    assert ParsesExactly(G, t, depth, [X], Parse);
  }

  /** Generated without conflicts, the parser accepts X; with Z behind it, it throws Z away
      and accepts nothing. */
  method GenerateSpoiled() returns (t: Tables, clean: bool)
    ensures clean && ExactParser(G, t)
    ensures forall depth: nat :: depth >= 2 ==> Accepted(t, depth) && Refused(t, depth)
  {
    hide *;
    GrammarOk();
    ScansOk();
    var n;
    ghost var first, a, look, b, l;
    t, n, clean, first, a, look, b, l := Generate(G, true);
    NoConflicts(first, a, look);
    DeliveredGenerated(G, first, b, l, t);
    ghost var x, c := SpoilsHolds(first, b, l, t);
    forall depth: nat | depth >= 2 ensures Accepted(t, depth) && Refused(t, depth) {
      XIsAccepted(t, depth);
      SpoiledRun(t, depth, x, c);
      IsRefused(t, depth);
    }
  }

  lemma IsRefused(t: Tables, depth: nat)
    requires Run(t, depth, [X, Z, 0], FreshParser, 4) == Some(Failed)
    ensures Refused(t, depth)
  {
    hide Run;
  }
}
