/** What else hidden empty rules can do: a grammar that is ambiguous and yet has no conflicts,
    and whose parser, with default reductions, never returns from its first call. */
module HiddenLoop {
  import opened Options
  import opened Grammars
  import opened FirstSets
  import opened Automata
  import opened ActionLists
  import opened Champions
  import opened Driver
  import opened Soundness
  import opened Completeness
  import opened Generator
  import opened ParserObject
  import opened NoDetours

  const T: nat := 1
  const Y: nat := 2
  const S: nat := 3
  const X: nat := 4
  const E: nat := 5
  const H: nat := 6
  const F: nat := 7

  /** s ::= x.   x ::= x e h.   x ::= .   e ::= f.   h ::= f.   h ::= T.   f ::= .
      The token Y is in no rule. */
  const G := Grammar(
    3,
    [Symbol(-1, UNK), Symbol(-1, UNK), Symbol(-1, UNK), Symbol(-1, UNK), Symbol(-1, UNK), Symbol(-1, UNK),
     Symbol(-1, UNK), Symbol(-1, UNK)],
    [Rule(S, [X], None), Rule(X, [X, E, H], None), Rule(X, [], None), Rule(E, [F], None), Rule(H, [F], None),
     Rule(H, [T], None), Rule(F, [], None)],
    S)

  lemma GrammarOk()
    ensures G.WellFormed() && G.StartNotOnRhs() && G.RhsFits()
    ensures ExplicitEmpty(G) == {X, F}
  {
    assert G.rules[2].rhs == [] && G.rules[6].rhs == [];
    forall x ensures x in ExplicitEmpty(G) <==> x == X || x == F {
      if x == X { assert G.rules[2].lhs == X; }
      if x == F { assert G.rules[6].lhs == F; }
    }
  }

  /** What the scans find. */
  lemma Firsts(first: seq<set<nat>>)
    requires IsFirst(G, ExplicitEmpty(G), first)
    ensures |first| == 8 && first[E] == {} && first[H] == {T}
  {
    GrammarOk();
    var fam: seq<set<nat>> := [{}, {}, {}, {}, {}, {}, {T}, {}];
    var lambda := {X, F};
    assert FirstOfSeq(G, lambda, fam, [X]) == {} by { assert [X][1..] == []; }
    assert FirstOfSeq(G, lambda, fam, [F]) == {} by { assert [F][1..] == []; }
    assert FirstOfSeq(G, lambda, fam, [X, E, H]) == {} by {
      assert [X, E, H][1..] == [E, H];
      assert FirstOfSeq(G, lambda, fam, [E, H]) == {};
    }
    forall r | 0 <= r < |G.rules| ensures FirstOfSeq(G, lambda, fam, G.rules[r].rhs) <= FirstAt(fam, G.rules[r].lhs) {
      assert r == 0 || r == 1 || r == 2 || r == 3 || r == 4 || r == 5 || r == 6;
    }
    assert Below(first, fam);
    assert G.rules[5].rhs == [T] && FirstOfSeq(G, lambda, first, [T]) == {T};
    assert FirstOfSeq(G, lambda, first, G.rules[5].rhs) <= FirstAt(first, G.rules[5].lhs);
  }

  // ---------------------------------------------------------------------------
  // The states

  const I0 := {Item(0, 0), Item(1, 0), Item(2, 0)}
  const IB := {Item(0, 1), Item(1, 1), Item(3, 0), Item(6, 0)}
  const IC := {Item(1, 2), Item(4, 0), Item(5, 0), Item(6, 0)}
  const ID := {Item(3, 1)}
  const IE := {Item(1, 3)}
  const IF := {Item(4, 1)}
  const IG := {Item(5, 1)}

  predicate Expected(items: set<Item>) {
    items == I0 || items == IB || items == IC || items == ID || items == IE || items == IF || items == IG
  }

  lemma CallsOf(it: Item, r: nat)
    requires Calls(G, it, r)
    ensures || (it in {Item(0, 0), Item(1, 0)} && r in {1, 2})
            || (it == Item(1, 1) && r == 3)
            || (it == Item(1, 2) && r in {4, 5})
            || (it in {Item(3, 0), Item(4, 0)} && r == 6)
  {
    assert it.rule in {0, 1, 2, 3, 4, 5, 6} && r in {0, 1, 2, 3, 4, 5, 6};
  }

  lemma ExpectedClosed(k: set<Item>)
    requires Expected(k)
    ensures ItemsClosed(G, k)
  {
    forall it, r: nat | it in k && Calls(G, it, r) ensures Item(r, 0) in k {
      CallsOf(it, r);
    }
  }

  lemma Closure0(items: set<Item>)
    requires IsClosure(G, {Item(0, 0)}, items)
    ensures items == I0
  {
    ExpectedClosed(I0);
    assert Item(0, 0) in items && Calls(G, Item(0, 0), 1) && Calls(G, Item(0, 0), 2);
  }

  lemma ClosureB(items: set<Item>)
    requires IsClosure(G, {Item(0, 1), Item(1, 1)}, items)
    ensures items == IB
  {
    ExpectedClosed(IB);
    assert Item(0, 1) in items && Item(1, 1) in items && Calls(G, Item(1, 1), 3);
    assert Item(3, 0) in items && Calls(G, Item(3, 0), 6);
  }

  lemma ClosureC(items: set<Item>)
    requires IsClosure(G, {Item(1, 2)}, items)
    ensures items == IC
  {
    ExpectedClosed(IC);
    assert Item(1, 2) in items && Calls(G, Item(1, 2), 4) && Calls(G, Item(1, 2), 5);
    assert Item(4, 0) in items && Calls(G, Item(4, 0), 6);
  }

  lemma ClosureLast(basis: set<Item>, items: set<Item>)
    requires IsClosure(G, basis, items) && (basis == ID || basis == IE || basis == IF || basis == IG)
    ensures items == basis
  {
    ExpectedClosed(basis);
  }

  /** The symbol after the dot, written out. */
  function Shifts(it: Item): Option<nat> {
    match it
    case Item(0, 0) => Some(X)
    case Item(1, 0) => Some(X)
    case Item(1, 1) => Some(E)
    case Item(1, 2) => Some(H)
    case Item(3, 0) => Some(F)
    case Item(4, 0) => Some(F)
    case Item(5, 0) => Some(T)
    case _ => None
  }

  lemma ShiftsIs(it: Item, x: nat)
    ensures ShiftsOn(G, it, x) <==> Shifts(it) == Some(x)
  {
    assert it.rule in {0, 1, 2, 3, 4, 5, 6} || it.rule >= 7;
  }

  /** What a state shifts, and where that leads. */
  lemma Moves(b: Automaton, s: nat, x: nat)
    requires IsAutomaton(G, b) && s < |b|
    ensures x in b[s].trans <==> exists it :: it in b[s].items && Shifts(it) == Some(x)
    ensures x in b[s].trans ==> b[s].trans[x] < |b|
    ensures x in b[s].trans ==> var k := b[s].trans[x];
              IsClosure(G, set it | it in b[s].items && Shifts(it) == Some(x) :: Advance(it), b[k].items)
  {
    assert StateOk(G, b, s);
    hide IsClosure, ShiftsOn, Shifts;
    forall it | it in b[s].items ensures ShiftsOn(G, it, x) <==> Shifts(it) == Some(x) {
      ShiftsIs(it, x);
    }
    forall it | it in b[s].items && ShiftsOn(G, it, x) ensures x in b[s].trans {
      ShiftsMeans(it, x);
    }
    if x in b[s].trans {
      assert StateOk(G, b, b[s].trans[x]);
      assert GotoBasis(G, b[s].items, x) == set it | it in b[s].items && Shifts(it) == Some(x) :: Advance(it);
    }
  }

  lemma ShiftsMeans(it: Item, x: nat)
    requires ShiftsOn(G, it, x)
    ensures CanShift(G, it) && Next(G, it) == x
  {
  }

  lemma From0(b: Automaton, s: nat)
    requires IsAutomaton(G, b) && s < |b| && b[s].items == I0
    ensures forall x: nat :: x in b[s].trans <==> x == X
    ensures b[s].trans[X] < |b| && b[b[s].trans[X]].items == IB
  {
    hide IsAutomaton, IsClosure;
    forall x: nat ensures x in b[s].trans <==> x == X {
      Moves(b, s, x);
      assert Item(0, 0) in I0;
    }
    Moves(b, s, X);
    assert (set it | it in I0 && Shifts(it) == Some(X) :: Advance(it)) == {Item(0, 1), Item(1, 1)};
    ClosureB(b[b[s].trans[X]].items);
  }

  lemma FromB(b: Automaton, s: nat)
    requires IsAutomaton(G, b) && s < |b| && b[s].items == IB
    ensures forall x: nat :: x in b[s].trans <==> x == E || x == F
    ensures b[s].trans[E] < |b| && b[b[s].trans[E]].items == IC
    ensures b[s].trans[F] < |b| && b[b[s].trans[F]].items == ID
  {
    hide IsAutomaton, IsClosure;
    forall x: nat ensures x in b[s].trans <==> x == E || x == F {
      Moves(b, s, x);
      assert Item(1, 1) in IB && Item(3, 0) in IB;
    }
    Moves(b, s, E);
    assert (set it | it in IB && Shifts(it) == Some(E) :: Advance(it)) == {Item(1, 2)};
    ClosureC(b[b[s].trans[E]].items);
    Moves(b, s, F);
    assert (set it | it in IB && Shifts(it) == Some(F) :: Advance(it)) == ID;
    ClosureLast(ID, b[b[s].trans[F]].items);
  }

  lemma FromC(b: Automaton, s: nat)
    requires IsAutomaton(G, b) && s < |b| && b[s].items == IC
    ensures forall x: nat :: x in b[s].trans <==> x == H || x == F || x == T
    ensures b[s].trans[H] < |b| && b[b[s].trans[H]].items == IE
    ensures b[s].trans[F] < |b| && b[b[s].trans[F]].items == IF
    ensures b[s].trans[T] < |b| && b[b[s].trans[T]].items == IG
  {
    hide IsAutomaton, IsClosure;
    forall x: nat ensures x in b[s].trans <==> x == H || x == F || x == T {
      Moves(b, s, x);
      assert Item(1, 2) in IC && Item(4, 0) in IC && Item(5, 0) in IC;
    }
    Moves(b, s, H);
    assert (set it | it in IC && Shifts(it) == Some(H) :: Advance(it)) == IE;
    ClosureLast(IE, b[b[s].trans[H]].items);
    Moves(b, s, F);
    assert (set it | it in IC && Shifts(it) == Some(F) :: Advance(it)) == IF;
    ClosureLast(IF, b[b[s].trans[F]].items);
    Moves(b, s, T);
    assert (set it | it in IC && Shifts(it) == Some(T) :: Advance(it)) == IG;
    ClosureLast(IG, b[b[s].trans[T]].items);
  }

  lemma FromLast(b: Automaton, s: nat)
    requires IsAutomaton(G, b) && s < |b| && b[s].items in {ID, IE, IF, IG}
    ensures forall x: nat :: x !in b[s].trans
  {
    hide IsAutomaton, IsClosure;
    forall x: nat ensures x !in b[s].trans {
      Moves(b, s, x);
    }
  }

  lemma FirstState(b: Automaton)
    requires IsAutomaton(G, b)
    ensures |b| > 0 && b[0].items == I0
  {
    assert StateOk(G, b, 0);
    assert StartItems(G) == {Item(0, 0)} by {
      assert G.rules[0].lhs == S;
      forall it ensures it in StartItems(G) <==> it == Item(0, 0) {
      }
    }
    Closure0(b[0].items);
  }

  /** There are no other states. */
  lemma {:induction false} OnlyThese(b: Automaton, s: nat, xs: seq<nat>)
    requires IsAutomaton(G, b) && s < |b| && Expected(b[s].items) && Walk(b, s, xs) < |b|
    ensures Expected(b[Walk(b, s, xs)].items)
    decreases |xs|
  {
    hide IsAutomaton;
    if xs != [] {
      if b[s].items == I0 { From0(b, s); }
      else if b[s].items == IB { FromB(b, s); }
      else if b[s].items == IC { FromC(b, s); }
      else { FromLast(b, s); }
      OnlyThese(b, b[s].trans[xs[0]], xs[1..]);
    }
  }

  // ---------------------------------------------------------------------------
  // No conflicts

  /** What the lookahead sets stay within. */
  function Bound(items: set<Item>, it: Item): set<nat> {
    if it.rule == 3 then {T}
    else if it.rule == 6 then (if Item(3, 0) in items then {T} else {}) + (if Item(4, 0) in items then {0} else {})
    else {0}
  }

  function BoundLook(b: Automaton): (m: Lookaheads) {
    seq(|b|, s requires 0 <= s < |b| => map it | it in b[s].items :: Bound(b[s].items, it))
  }

  lemma BoundAt(b: Automaton, s: nat, it: Item)
    requires s < |b| && it in b[s].items
    ensures LookAt(BoundLook(b), s, it) == Bound(b[s].items, it)
  {
  }

  lemma RestsOf(it: Item, first: seq<set<nat>>)
    requires CanShift(G, it) && |first| == 8 && first[E] == {} && first[H] == {T}
    ensures it == Item(1, 0) ==> FirstOfSeq(G, {X, F}, first, Rest(G, it)) == {} && !Transparent(G, {X, F}, Rest(G, it))
    ensures it == Item(1, 1) ==>
            FirstOfSeq(G, {X, F}, first, Rest(G, it)) == {T} && !Transparent(G, {X, F}, Rest(G, it))
    ensures it in {Item(0, 0), Item(1, 2), Item(3, 0), Item(4, 0)} ==> Rest(G, it) == []
  {
    assert [X, E, H][1..] == [E, H] && [X, E, H][2..] == [H];
    assert it == Item(1, 0) ==> Rest(G, it) == [E, H];
    assert it == Item(1, 1) ==> Rest(G, it) == [H];
    assert FirstOfSeq(G, {X, F}, first, [E, H]) == {} && FirstOfSeq(G, {X, F}, first, [H]) == {T};
    assert [E, H][0] == E && [H][0] == H;
  }

  lemma BoundLocal(b: Automaton, first: seq<set<nat>>, s: nat, it: Item, r: nat)
    requires IsAutomaton(G, b) && s < |b| && it in b[s].items && Calls(G, it, r)
    requires |first| == 8 && first[E] == {} && first[H] == {T}
    ensures LookLocal(G, {X, F}, first, BoundLook(b), s, it, r)
  {
    assert StateOk(G, b, s) && Item(r, 0) in b[s].items;
    hide IsAutomaton, BoundLook, StateOk;
    CallsOf(it, r);
    RestsOf(it, first);
    BoundAt(b, s, it);
    BoundAt(b, s, Item(r, 0));
  }

  lemma BoundClosed(b: Automaton, first: seq<set<nat>>)
    requires IsAutomaton(G, b) && |first| == 8 && first[E] == {} && first[H] == {T}
    ensures LookClosed(G, {X, F}, first, b, BoundLook(b))
  {
    FirstState(b);
    hide LookLocal, BoundLook;
    forall it | it in StartItems(G) ensures 0 in LookAt(BoundLook(b), 0, it) {
      assert it == Item(0, 0);
      BoundAt(b, 0, it);
    }
    forall s, it, r | 0 <= s < |b| && it in b[s].items && Calls(G, it, r)
      ensures LookLocal(G, {X, F}, first, BoundLook(b), s, it, r)
    {
      BoundLocal(b, first, s, it, r);
    }
    forall s, it | 0 <= s < |b| && it in b[s].items && CanShift(G, it) && Next(G, it) in b[s].trans
      ensures LookAt(BoundLook(b), s, it) <= LookAt(BoundLook(b), b[s].trans[Next(G, it)], Advance(it))
    {
      BoundShift(b, s, it);
    }
    assert |BoundLook(b)| == |b| by { BoundSize(b); }
  }

  lemma BoundSize(b: Automaton)
    ensures |BoundLook(b)| == |b|
  {
  }

  lemma BoundShift(b: Automaton, s: nat, it: Item)
    requires IsAutomaton(G, b) && s < |b| && it in b[s].items && CanShift(G, it) && Next(G, it) in b[s].trans
    ensures LookAt(BoundLook(b), s, it) <= LookAt(BoundLook(b), b[s].trans[Next(G, it)], Advance(it))
  {
    assert StateOk(G, b, s);
    var k := b[s].trans[Next(G, it)];
    assert Advance(it) in b[k].basis && StateOk(G, b, k);
    hide IsAutomaton, BoundLook, StateOk;
    BoundAt(b, s, it);
    BoundAt(b, k, Advance(it));
  }

  /** The completed items, written out. */
  lemma CompleteOf(it: Item)
    requires IsComplete(G, it)
    ensures it in {Item(0, 1), Item(1, 3), Item(2, 0), Item(3, 1), Item(4, 1), Item(5, 1), Item(6, 0)}
  {
    assert it.rule in {0, 1, 2, 3, 4, 5, 6};
  }

  ghost predicate StateBounded(b: Automaton, l: Lookaheads, s: nat)
    requires s < |b|
  {
    forall it :: it in b[s].items ==> LookAt(l, s, it) <= Bound(b[s].items, it)
  }

  /** Which items are completed there, and for which tokens. */
  lemma ReducesIn(items: set<Item>, it: Item, tok: nat)
    requires Expected(items) && it in items && IsComplete(G, it) && tok in Bound(items, it)
    ensures items == I0 ==> it == Item(2, 0) && tok == 0
    ensures items == IB ==> it == (if tok == 0 then Item(0, 1) else Item(6, 0)) && tok <= T
    ensures items == IC ==> it == Item(6, 0) && tok == 0
    ensures items in {ID, IE, IF, IG} ==> items == {it}
  {
    CompleteOf(it);
  }

  /** In an expected state, each token has at most one action. */
  lemma OneAction(b: Automaton, l: Lookaheads, s: nat, it: Item, jt: Item, tok: nat)
    requires IsAutomaton(G, b) && s < |b| && Expected(b[s].items) && StateBounded(b, l, s)
    requires Reduces(G, b, l, s, it, tok) && Reduces(G, b, l, s, jt, tok)
    ensures tok !in b[s].trans && it == jt
  {
    hide IsAutomaton, Bound, IsComplete;
    ReducesIn(b[s].items, it, tok);
    ReducesIn(b[s].items, jt, tok);
    if b[s].items == I0 { From0(b, s); }
    else if b[s].items == IB { FromB(b, s); }
    else if b[s].items == IC { FromC(b, s); }
    else { FromLast(b, s); }
  }

  lemma NoConflicts(first: seq<set<nat>>, a: Automaton, look: Lookaheads)
    requires IsLalr(G, first, a, look)
    ensures ConflictFree(G, a, look)
  {
    GrammarOk();
    Firsts(first);
    BoundClosed(a, first);
    assert LookBelow(a, look, BoundLook(a));
    hide LookClosed, BoundLook, Expected, IsFirst;
    forall s: nat, it, jt, tok | Reduces(G, a, look, s, it, tok) && Reduces(G, a, look, s, jt, tok)
      ensures tok !in a[s].trans && it == jt
    {
      CanonicalReached(G, a, s);
      var xs :| Walk(a, 0, xs) == s;
      FirstState(a);
      assert Expected(I0) by { FirstExpected(); }
      OnlyThese(a, 0, xs);
      forall i | i in a[s].items ensures LookAt(look, s, i) <= Bound(a[s].items, i) {
        BoundAt(a, s, i);
      }
      OneAction(a, look, s, it, jt, tok);
    }
  }

  lemma FirstExpected()
    ensures Expected(I0)
  {
  }

  // ---------------------------------------------------------------------------
  // What the tables say about the token Y

  /** Without anything else to win, the rule becomes the default and answers Y. */
  lemma OnlyReduce(first: seq<set<nat>>, b: Automaton, l: Lookaheads, t: Tables, s: nat, r: nat, k: nat)
    requires Delivered(G, first, b, l, t) && DefaultsOk(G, b, l, t, true) && Generated(G, b, l, t)
    requires s < |b| && 0 < r < |G.rules| && Reduces(G, b, l, s, CompleteItem(G, r), k) && k < Y
    requires k !in b[s].trans && Y !in b[s].trans
    requires forall q :: 0 <= q < |G.rules| && CompleteItem(G, q) in b[s].items ==> q == r || (q == 0 && k != 0)
    ensures FindShiftAction(t, s, Y) == Some(t.nstate + r)
  {
    hide IsLook, IsAutomaton, TablesFor, GotosOnly, FindShiftAction, Champion, AllReached, Wins;
    forall tok: nat, q: nat | tok in Wins(G, b, l, s, q) ensures q == r || q == 0 {
      WinnerReduces(b, l, s, tok, q);
    }
    ChampionExists(G, b, l, s, k, |G.rules|);
    var c := Champion(G, b, l, s, k, |G.rules|).value;
    ChampionReduces(G, b, l, s, k, |G.rules|);
    ChampionShifts(G, b, l, s, k, |G.rules|);
    assert c == Action(k, REDUCE, r) by { NotStartRule(b, l, t, s, k, c.arg); }
    assert k in Wins(G, b, l, s, r) by { WonBy(b, l, s, k, r); }
    OnlyDefault(b, l, t, s, r);
    var d := Champion(G, b, l, s, Y, |G.rules|);
    if d.Some? {
      ChampionReduces(G, b, l, s, Y, |G.rules|);
      ChampionShifts(G, b, l, s, Y, |G.rules|);
      NotStartRule(b, l, t, s, Y, d.value.arg);
    }
    RuleTable(b, l, t);
  }

  lemma RuleTable(b: Automaton, l: Lookaheads, t: Tables)
    requires Generated(G, b, l, t)
    ensures t.nstate == |b| > 0 && t.nrule == 7 && GotosOk(G, b, t)
    ensures t.ruleInfo == [(S, 1), (X, 3), (X, 0), (E, 1), (H, 1), (H, 1), (F, 0)]
  {
    hide TokenActionOk, StateOk, GotosOk;
  }

  lemma NotStartRule(b: Automaton, l: Lookaheads, t: Tables, s: nat, tok: nat, q: nat)
    requires Generated(G, b, l, t) && q < |G.rules| && Reduces(G, b, l, s, CompleteItem(G, q), tok)
    ensures CompleteItem(G, q) in b[s].items && (q == 0 ==> tok == 0)
  {
    hide IsAutomaton, TablesFor;
    assert G.rules[0].lhs == S;
  }

  lemma WinnerReduces(b: Automaton, l: Lookaheads, s: nat, tok: nat, q: nat)
    requires G.WellFormed() && s < |b| && tok in Wins(G, b, l, s, q)
    ensures q < |G.rules| && CompleteItem(G, q) in b[s].items
  {
    hide Champion;
    ChampionReduces(G, b, l, s, tok, |G.rules|);
  }

  lemma WonBy(b: Automaton, l: Lookaheads, s: nat, tok: nat, r: nat)
    requires G.WellFormed() && s < |b| && tok < Y
    requires Champion(G, b, l, s, tok, |G.rules|) == Some(Action(tok, REDUCE, r))
    ensures tok in Wins(G, b, l, s, r)
  {
    hide Champion;
  }

  lemma OnlyDefault(b: Automaton, l: Lookaheads, t: Tables, s: nat, r: nat)
    requires G.WellFormed() && DefaultsOk(G, b, l, t, true) && s < |b| && 0 < r < |G.rules| && Wins(G, b, l, s, r) != {}
    requires forall tok: nat, q: nat :: tok in Wins(G, b, l, s, q) ==> q == r || q == 0
    ensures t.dflt[s] == |b| + r
  {
    hide Wins;
    assert G.IsStartRule(0) && !G.IsStartRule(r) by { assert r == 1 || r == 2 || r == 3 || r == 4 || r == 5 || r == 6; }
    forall q: nat | q != r && !G.IsStartRule(q) ensures Wins(G, b, l, s, q) == {} {
      assert forall tok: nat :: tok !in Wins(G, b, l, s, q);
    }
    assert Commonest(G, b, l, s, r);
    assert IsDefault(G, b, l, s, true, t.dflt[s]);
  }

  /** The states of the loop. */
  datatype Loop = Loop(b: nat, c: nat, d: nat, e: nat, f: nat)

  ghost predicate InLoop(b: Automaton, k: Loop) {
    && |b| > 0 && b[0].items == I0 && X in b[0].trans && b[0].trans[X] == k.b
    && k.b < |b| && b[k.b].items == IB && E in b[k.b].trans && b[k.b].trans[E] == k.c
    && F in b[k.b].trans && b[k.b].trans[F] == k.d
    && k.c < |b| && b[k.c].items == IC && H in b[k.c].trans && b[k.c].trans[H] == k.e
    && F in b[k.c].trans && b[k.c].trans[F] == k.f
    && k.d < |b| && b[k.d].items == ID && k.e < |b| && b[k.e].items == IE && k.f < |b| && b[k.f].items == IF
  }

  lemma FindLoop(b: Automaton) returns (k: Loop)
    requires IsAutomaton(G, b)
    ensures InLoop(b, k)
  {
    hide IsAutomaton;
    FirstState(b);
    From0(b, 0);
    var s := b[0].trans[X];
    FromB(b, s);
    var c := b[s].trans[E];
    FromC(b, c);
    k := Loop(s, c, b[s].trans[F], b[c].trans[H], b[c].trans[F]);
  }

  lemma Passed(first: seq<set<nat>>, b: Automaton, l: Lookaheads, s: nat, it: Item, r: nat)
    requires LookClosed(G, {X, F}, first, b, l) && s < |b| && it in b[s].items && Calls(G, it, r) && Rest(G, it) == []
    ensures LookAt(l, s, it) <= LookAt(l, s, Item(r, 0))
  {
    assert LookLocal(G, {X, F}, first, l, s, it, r);
  }

  lemma Carried(first: seq<set<nat>>, b: Automaton, l: Lookaheads, s: nat, it: Item, x: nat)
    requires LookClosed(G, {X, F}, first, b, l) && s < |b| && it in b[s].items && x in b[s].trans
    requires Shifts(it) == Some(x)
    ensures LookAt(l, s, it) <= LookAt(l, b[s].trans[x], Advance(it))
  {
    ShiftsIs(it, x);
  }

  /** What is at least in the lookahead sets. */
  lemma Reaches(first: seq<set<nat>>, b: Automaton, l: Lookaheads, k: Loop)
    requires IsFirst(G, ExplicitEmpty(G), first) && LookClosed(G, ExplicitEmpty(G), first, b, l) && InLoop(b, k)
    ensures 0 in LookAt(l, 0, Item(2, 0)) && T in LookAt(l, k.b, Item(6, 0)) && T in LookAt(l, k.d, Item(3, 1))
    ensures 0 in LookAt(l, k.c, Item(6, 0)) && 0 in LookAt(l, k.f, Item(4, 1)) && 0 in LookAt(l, k.e, Item(1, 3))
  {
    GrammarOk();
    Firsts(first);
    assert 0 in LookAt(l, 0, Item(0, 0)) by {
      assert G.rules[0].lhs == S;
      assert Item(0, 0) in StartItems(G);
    }
    assert LookLocal(G, {X, F}, first, l, k.b, Item(1, 1), 3) by { assert Calls(G, Item(1, 1), 3); }
    hide LookClosed, LookAt, IsFirst;
    RestsOf(Item(0, 0), first);
    RestsOf(Item(1, 1), first);
    RestsOf(Item(1, 2), first);
    RestsOf(Item(3, 0), first);
    RestsOf(Item(4, 0), first);
    Passed(first, b, l, 0, Item(0, 0), 1);
    Passed(first, b, l, 0, Item(0, 0), 2);
    Carried(first, b, l, 0, Item(1, 0), X);
    Carried(first, b, l, k.b, Item(1, 1), E);
    Carried(first, b, l, k.c, Item(1, 2), H);
    Passed(first, b, l, k.b, Item(3, 0), 6);
    Carried(first, b, l, k.b, Item(3, 0), F);
    Passed(first, b, l, k.c, Item(1, 2), 4);
    Passed(first, b, l, k.c, Item(4, 0), 6);
    Carried(first, b, l, k.c, Item(4, 0), F);
  }

  /** On Y there is always something to reduce. */
  ghost predicate GoesRound(t: Tables, k: Loop) {
    && t.ruleInfo == [(S, 1), (X, 3), (X, 0), (E, 1), (H, 1), (H, 1), (F, 0)] && t.nrule == 7
    && AlwaysReduces(t, k) && GotosReturn(t, k)
  }

  ghost predicate AlwaysReduces(t: Tables, k: Loop) {
    && FindShiftAction(t, 0, Y) == Some(t.nstate + 2) && FindShiftAction(t, k.b, Y) == Some(t.nstate + 6)
    && FindShiftAction(t, k.d, Y) == Some(t.nstate + 3) && FindShiftAction(t, k.c, Y) == Some(t.nstate + 6)
    && FindShiftAction(t, k.f, Y) == Some(t.nstate + 4) && FindShiftAction(t, k.e, Y) == Some(t.nstate + 1)
  }

  ghost predicate GotosReturn(t: Tables, k: Loop) {
    && k.b < t.nstate && k.c < t.nstate && k.d < t.nstate && k.e < t.nstate && k.f < t.nstate
    && FindReduceAction(t, 0, X) == Some(k.b) && FindReduceAction(t, k.b, F) == Some(k.d)
    && FindReduceAction(t, k.b, E) == Some(k.c) && FindReduceAction(t, k.c, F) == Some(k.f)
    && FindReduceAction(t, k.c, H) == Some(k.e)
  }

  lemma CompletesIn(b: Automaton, s: nat, q: nat)
    requires s < |b| && q < |G.rules| && CompleteItem(G, q) in b[s].items
    ensures b[s].items == I0 ==> q == 2
    ensures b[s].items == IB ==> q == 0 || q == 6
    ensures b[s].items == IC ==> q == 6
    ensures b[s].items == ID ==> q == 3
    ensures b[s].items == IE ==> q == 1
    ensures b[s].items == IF ==> q == 4
  {
    assert q in {0, 1, 2, 3, 4, 5, 6};
  }

  lemma Answer(first: seq<set<nat>>, b: Automaton, l: Lookaheads, t: Tables, s: nat, r: nat, k: nat)
    requires Delivered(G, first, b, l, t) && DefaultsOk(G, b, l, t, true) && Generated(G, b, l, t) && s < |b|
    requires if b[s].items == I0 then r == 2 && k == 0 else if b[s].items == IB then r == 6 && k == T
             else if b[s].items == IC then r == 6 && k == 0 else if b[s].items == ID then r == 3 && k == T
             else if b[s].items == IE then r == 1 && k == 0 else b[s].items == IF && r == 4 && k == 0
    requires k in LookAt(l, s, CompleteItem(G, r))
    ensures FindShiftAction(t, s, Y) == Some(t.nstate + r)
  {
    hide Delivered, TablesFor, IsAutomaton, DefaultsOk, FindShiftAction, LookAt;
    if b[s].items == I0 { From0(b, s); }
    else if b[s].items == IB { FromB(b, s); }
    else if b[s].items == IC { FromC(b, s); }
    else { FromLast(b, s); }
    forall q | 0 <= q < |G.rules| && CompleteItem(G, q) in b[s].items ensures q == r || (q == 0 && k != 0) {
      CompletesIn(b, s, q);
    }
    OnlyReduce(first, b, l, t, s, r, k);
  }

  lemma LoopReduces(first: seq<set<nat>>, b: Automaton, l: Lookaheads, t: Tables, k: Loop)
    requires IsFirst(G, ExplicitEmpty(G), first) && Delivered(G, first, b, l, t) && DefaultsOk(G, b, l, t, true)
    requires Generated(G, b, l, t) && InLoop(b, k) && LookClosed(G, ExplicitEmpty(G), first, b, l)
    ensures AlwaysReduces(t, k)
  {
    hide Delivered, Generated, IsFirst, DefaultsOk, FindShiftAction, LookAt, LookClosed;
    Reaches(first, b, l, k);
    assert CompleteItem(G, 2) == Item(2, 0) && CompleteItem(G, 6) == Item(6, 0) && CompleteItem(G, 3) == Item(3, 1);
    assert CompleteItem(G, 4) == Item(4, 1) && CompleteItem(G, 1) == Item(1, 3);
    SetsDiffer();
    hide InLoop;
    InLoopItems(b, k);
    Answer(first, b, l, t, 0, 2, 0);
    Answer(first, b, l, t, k.b, 6, T);
    Answer(first, b, l, t, k.d, 3, T);
    Answer(first, b, l, t, k.c, 6, 0);
    Answer(first, b, l, t, k.f, 4, 0);
    Answer(first, b, l, t, k.e, 1, 0);
  }

  lemma SetsDiffer()
    ensures Item(0, 0) in I0 && Item(0, 1) in IB && Item(1, 2) in IC && Item(3, 1) in ID && Item(1, 3) in IE
    ensures Item(4, 1) in IF
    ensures I0 != IB && I0 != IC && I0 != ID && I0 != IE && I0 != IF && IB != IC && IB != ID && IB != IE && IB != IF
    ensures IC != ID && IC != IE && IC != IF && ID != IE && ID != IF && IE != IF
  {
    assert Item(0, 0) in I0 && Item(0, 1) in IB && Item(1, 2) in IC && Item(3, 1) in ID && Item(1, 3) in IE &&
      Item(4, 1) in IF;
  }

  lemma InLoopItems(b: Automaton, k: Loop)
    requires InLoop(b, k)
    ensures |b| > 0 && b[0].items == I0 && k.b < |b| && b[k.b].items == IB && k.c < |b| && b[k.c].items == IC
    ensures k.d < |b| && b[k.d].items == ID && k.e < |b| && b[k.e].items == IE && k.f < |b| && b[k.f].items == IF
  {
  }

  lemma LoopReturns(b: Automaton, t: Tables, k: Loop)
    requires InLoop(b, k) && GotosOk(G, b, t) && t.nstate == |b|
    ensures GotosReturn(t, k)
  {
    hide FindReduceAction;
  }

  lemma DeliveredLook(first: seq<set<nat>>, b: Automaton, l: Lookaheads, t: Tables)
    requires Delivered(G, first, b, l, t)
    ensures IsAutomaton(G, b) && LookClosed(G, ExplicitEmpty(G), first, b, l)
  {
    hide IsAutomaton, TablesFor, TablesChoose, DefaultsAnswer, GotosOnly, AllReached, Generated, LookClosed;
  }

  lemma RoundHolds(first: seq<set<nat>>, b: Automaton, l: Lookaheads, t: Tables) returns (k: Loop)
    requires IsFirst(G, ExplicitEmpty(G), first) && Delivered(G, first, b, l, t) && DefaultsOk(G, b, l, t, true)
    requires Generated(G, b, l, t)
    ensures GoesRound(t, k)
  {
    hide Delivered, Generated, IsFirst, IsAutomaton, DefaultsOk, LookClosed, InLoop, AlwaysReduces, GotosReturn,
         GotosOk;
    DeliveredLook(first, b, l, t);
    k := FindLoop(b);
    RuleTable(b, l, t);
    LoopReduces(first, b, l, t, k);
    LoopReturns(b, t, k);
  }

  // ---------------------------------------------------------------------------
  // The call that does not return

  /** Somewhere in the loop. */
  ghost predicate Going(k: Loop, p: Parser) {
    var states := StatesOf(p.stack);
    || states == [0] || states == [0, k.b] || states == [0, k.b, k.d] || states == [0, k.b, k.c]
    || states == [0, k.b, k.c, k.f] || states == [0, k.b, k.c, k.e]
  }

  lemma ReducesTo(t: Tables, depth: nat, p: Parser, r: nat, base: nat, next: nat)
    requires p.stack != [] && r < t.nrule == |t.ruleInfo|
    requires FindShiftAction(t, p.stack[|p.stack| - 1].stateno, Y) == Some(t.nstate + r)
    requires 0 < base < depth && base + t.ruleInfo[r].1 == |p.stack|
    requires FindReduceAction(t, p.stack[base - 1].stateno, t.ruleInfo[r].0) == Some(next) && next < t.nstate
    ensures var o := Iterate(t, depth, p, Y);
            o.Again? && o.parser.stack != [] && StatesOf(o.parser.stack) == StatesOf(p.stack)[..base] + [next]
  {
    hide FindShiftAction, FindReduceAction;
    var q := Iterate(t, depth, p, Y).parser;
    assert q.stack == p.stack[..base] + [q.stack[base]];
  }

  lemma GoesOn(t: Tables, depth: nat, k: Loop, p: Parser)
    requires GoesRound(t, k) && Going(k, p) && depth >= 4
    ensures p.stack != []
    ensures var o := Iterate(t, depth, p, Y); o.Again? && o.parser.stack != [] && Going(k, o.parser)
  {
    hide FindShiftAction, FindReduceAction, Iterate;
    var states := StatesOf(p.stack);
    assert |states| == |p.stack| && forall i :: 0 <= i < |p.stack| ==> states[i] == p.stack[i].stateno;
    if states == [0] {
      ReducesTo(t, depth, p, 2, 1, k.b);
    } else if states == [0, k.b] {
      ReducesTo(t, depth, p, 6, 2, k.d);
    } else if states == [0, k.b, k.d] {
      ReducesTo(t, depth, p, 3, 2, k.c);
    } else if states == [0, k.b, k.c] {
      ReducesTo(t, depth, p, 6, 3, k.f);
    } else if states == [0, k.b, k.c, k.f] {
      ReducesTo(t, depth, p, 4, 3, k.e);
    } else {
      ReducesTo(t, depth, p, 1, 1, k.b);
    }
  }

  lemma {:induction false} NeverEnds(t: Tables, depth: nat, k: Loop, p: Parser, n: nat)
    requires GoesRound(t, k) && Going(k, p) && depth >= 4 && p.stack != []
    ensures Turns(t, depth, p, Y, n).Again?
    decreases n
  {
    hide GoesRound, Going, Iterate;
    if n > 0 {
      GoesOn(t, depth, k, p);
      NeverEnds(t, depth, k, Iterate(t, depth, p, Y).parser, n - 1);
    }
  }

  /** However many turns of its loop are made, the first call with Y has not ended. */
  ghost predicate Endless(t: Tables, depth: nat) {
    forall n: nat :: Turns(t, depth, Initialised(FreshParser), Y, n).Again?
  }

  lemma EndlessHolds(first: seq<set<nat>>, b: Automaton, l: Lookaheads, t: Tables, depth: nat)
    requires IsFirst(G, ExplicitEmpty(G), first) && Delivered(G, first, b, l, t) && DefaultsOk(G, b, l, t, true)
    requires Generated(G, b, l, t) && depth >= 4
    ensures Endless(t, depth)
  {
    hide IsFirst, Delivered, DefaultsOk, Generated, GoesRound, Turns;
    var k := RoundHolds(first, b, l, t);
    var p := Initialised(FreshParser);
    assert StatesOf(p.stack) == [0];
    forall n: nat ensures Turns(t, depth, p, Y, n).Again? {
      NeverEnds(t, depth, k, p, n);
    }
  }

  const EmptyX := Branch(2, [])
  const EmptyF := Branch(6, [])
  const LongX := Branch(1, [EmptyX, Branch(3, [EmptyF]), Branch(4, [EmptyF])])

  lemma EmptyTrees()
    ensures ValidTree(G, EmptyX) && ValidTree(G, LongX) && Root(G, EmptyX) == X == Root(G, LongX)
    ensures Yield(EmptyX) == [] == Yield(LongX)
  {
    var e, h := Branch(3, [EmptyF]), Branch(4, [EmptyF]);
    assert Roots(G, []) == [] && Roots(G, [EmptyF]) == [F] && Roots(G, [EmptyX, e, h]) == [X, E, H];
    assert ValidTree(G, EmptyX) && ValidTree(G, EmptyF);
    assert ValidTree(G, e) && ValidTree(G, h);
    YieldsOne(EmptyF);
    assert Yield(EmptyF) == [] && Yield(e) == [] && Yield(h) == [] && Yield(EmptyX) == [];
    assert [EmptyX, e, h][1..] == [e, h] && [e, h][1..] == [h];
    YieldsOne(h);
    assert Yields([e, h]) == Yield(e) + Yields([h]);
    assert Yields([EmptyX, e, h]) == Yield(EmptyX) + Yields([e, h]);
  }

  /** Two parses of the empty string: x by its empty rule, or by way of x e h. */
  lemma Ambiguous()
    ensures !UnambiguousGrammar(G)
  {
    hide ValidTree, Yield;
    EmptyTrees();
    StartOver(EmptyX);
    StartOver(LongX);
    assert IsParse(G, Branch(0, [EmptyX]), []) && IsParse(G, Branch(0, [LongX]), []) && TokensOnly(G, []);
    assert [EmptyX] != [LongX] by { assert [EmptyX][0] != [LongX][0]; }
  }

  lemma StartOver(x: Tree)
    requires ValidTree(G, x) && Root(G, x) == X && Yield(x) == []
    ensures IsParse(G, Branch(0, [x]), [])
  {
    assert Roots(G, [x]) == [X];
    YieldsOne(x);
  }

  /** No conflicts, although the grammar is ambiguous, and a call that never ends. */
  method GenerateEndless() returns (t: Tables, clean: bool)
    ensures clean && !UnambiguousGrammar(G) && forall depth: nat :: depth >= 4 ==> Endless(t, depth)
  {
    hide *;
    GrammarOk();
    Ambiguous();
    var n;
    ghost var first, a, look, b, l;
    t, n, clean, first, a, look, b, l := Generate(G, true);
    GeneratedFacts(first, a, look, b, l, t);
    forall depth: nat | depth >= 4 ensures Endless(t, depth) {
      EndlessHolds(first, b, l, t, depth);
    }
  }

  lemma GeneratedFacts(first: seq<set<nat>>, a: Automaton, look: Lookaheads, b: Automaton, l: Lookaheads, t: Tables)
    requires IsLalr(G, first, a, look) && Delivered(G, first, b, l, t) && G.RhsFits()
    ensures ConflictFree(G, a, look) && IsFirst(G, ExplicitEmpty(G), first) && Generated(G, b, l, t)
  {
    hide IsCanonical, IsLook, IsFirst, Generated, ConflictFree, TablesFor, TablesChoose, GotosOnly, IsAutomaton,
         AllReached, DefaultsAnswer;
    NoConflicts(first, a, look);
  }
}
