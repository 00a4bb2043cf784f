/** Why completeness needs its side condition: a grammar without conflicts whose
    parser rejects a sentence, because the lambda flag of a nonterminal that is
    empty only by way of another one stays clear. */
module HiddenNullable {
  import opened Options
  import opened Grammars
  import opened FirstSets
  import opened Automata
  import opened Driver
  import opened Soundness
  import opened Completeness
  import opened Generator

  const X: nat := 1
  const S: nat := 2
  const A: nat := 3
  const B: nat := 4

  /** s ::= a a X.   a ::= b.   b ::= . */
  const G := Grammar(
    2,
    [Symbol(-1, UNK), Symbol(-1, UNK), Symbol(-1, UNK), Symbol(-1, UNK), Symbol(-1, UNK)],
    [Rule(S, [A, A, X], None), Rule(A, [B], None), Rule(B, [], None)],
    S)

  lemma GrammarOk()
    ensures G.WellFormed() && G.StartNotOnRhs() && G.RhsFits()
    ensures ExplicitEmpty(G) == {B}
  {
    assert G.rules[2].rhs == [];
    forall x ensures x in ExplicitEmpty(G) <==> x == B {
      if x == B { assert G.rules[2].lhs == B; }
    }
  }

  const EmptyB := Branch(2, [])
  const EmptyA := Branch(1, [EmptyB])
  const Parse := Branch(0, [EmptyA, EmptyA, Leaf(X)])

  /** The single token X is a sentence. */
  lemma IsSentence()
    ensures IsParse(G, Parse, [X]) && TokensOnly(G, [X]) && StackNeed(Parse) <= 4
  {
    assert Roots(G, EmptyB.children) == [];
    assert ValidTree(G, EmptyB) && Yield(EmptyB) == [];
    assert Roots(G, EmptyA.children) == [B];
    YieldsOne(EmptyB);
    assert ValidTree(G, EmptyA) && Yield(EmptyA) == [];
    var ch := [EmptyA, EmptyA, Leaf(X)];
    assert Roots(G, ch) == [A, A, X];
    assert ch[1..] == [EmptyA, Leaf(X)] && ch[1..][1..] == [Leaf(X)];
    YieldsOne(Leaf(X));
    assert Yields(ch[1..]) == Yield(EmptyA) + Yields([Leaf(X)]);
    assert Yields(ch) == Yield(EmptyA) + Yields(ch[1..]);
    NeedOfParse();
  }

  lemma NeedOfParse()
    ensures StackNeed(Parse) <= 4
  {
    var ch := [EmptyA, EmptyA, Leaf(X)];
    assert NeedSeq([EmptyB]) == 1 by { assert [EmptyB][1..] == []; }
    assert ch[1..] == [EmptyA, Leaf(X)] && [EmptyA, Leaf(X)][1..] == [Leaf(X)] && [Leaf(X)][1..] == [];
    assert NeedSeq([Leaf(X)]) == 1;
    assert NeedSeq([EmptyA, Leaf(X)]) == 2;
    assert NeedSeq(ch) == 3;
  }

  /** Nothing begins a string derived from `a`. */
  lemma NoFirst(first: seq<set<nat>>)
    requires IsFirst(G, ExplicitEmpty(G), first)
    ensures first[A] == {}
  {
    GrammarOk();
    var fam: seq<set<nat>> := [{}, {}, {X}, {}, {}];
    assert [A, A, X][1..] == [A, X];
    assert FirstOfSeq(G, {B}, fam, [A, A, X]) == {};
    assert FirstOfSeq(G, {B}, fam, [B]) <= {} by { assert [B][1..] == []; }
    forall r | 0 <= r < |G.rules| ensures FirstOfSeq(G, {B}, fam, G.rules[r].rhs) <= FirstAt(fam, G.rules[r].lhs) {
      assert r == 0 || r == 1 || r == 2;
    }
    assert Below(first, fam);
  }

  lemma {:induction false} CallsOf(it: Item, r: nat)
    requires Calls(G, it, r)
    ensures (r == 1 && (it == Item(0, 0) || it == Item(0, 1))) || (r == 2 && it == Item(1, 0))
  {
    assert it.rule == 0 || it.rule == 1 || it.rule == 2;
    assert r == 0 || r == 1 || r == 2;
  }

  /** The first state: its members. */
  lemma FirstState(a: Automaton)
    requires IsAutomaton(G, a)
    ensures a[0].items == {Item(0, 0), Item(1, 0), Item(2, 0)}
  {
    assert StateOk(G, a, 0);
    var items := {Item(0, 0), Item(1, 0), Item(2, 0)};
    assert StartItems(G) == {Item(0, 0)} by {
      assert G.rules[0].lhs == S;
      forall it ensures it in StartItems(G) <==> it == Item(0, 0) {
      }
    }
    forall it, r: nat | it in items && Calls(G, it, r) ensures Item(r, 0) in items {
      CallsOf(it, r);
    }
    assert ItemsClosed(G, items);
    assert a[0].items <= items;
    assert Calls(G, Item(0, 0), 1) && Calls(G, Item(1, 0), 2);
    assert Item(0, 0) in a[0].items;
    assert Item(1, 0) in a[0].items;
    assert Item(2, 0) in a[0].items;
  }

  /** In the first state no token calls for a reduce. */
  lemma NoLookahead(first: seq<set<nat>>, a: Automaton, look: Lookaheads)
    requires IsFirst(G, ExplicitEmpty(G), first) && IsAutomaton(G, a) && IsLook(G, ExplicitEmpty(G), first, a, look)
    ensures LookAt(look, 0, Item(2, 0)) == {}
  {
    GrammarOk();
    NoFirst(first);
    FirstState(a);
    var l := Silenced(look);
    SilencedClosed(first, a, look);
    assert LookBelow(a, look, l);
  }

  /** The same lookaheads, less those of the two rule starts in the first state. */
  function Silenced(look: Lookaheads): Lookaheads
    requires |look| > 0
  {
    look[0 := map it | it in look[0] :: if it == Item(1, 0) || it == Item(2, 0) then {} else look[0][it]]
  }

  lemma SilencedLocal(first: seq<set<nat>>, look: Lookaheads, it: Item, r: nat)
    requires |look| > 0 && |first| > A && first[A] == {} && Calls(G, it, r)
    requires LookLocal(G, {B}, first, look, 0, it, r) && it in {Item(0, 0), Item(1, 0), Item(2, 0)}
    ensures LookLocal(G, {B}, first, Silenced(look), 0, it, r)
  {
    CallsOf(it, r);
    assert [A, A, X][1..] == [A, X] && [A, X][0] == A;
    assert it == Item(0, 0) ==> Rest(G, it) == [A, X];
    assert it == Item(1, 0) ==> Rest(G, it) == [];
    assert FirstOfSeq(G, {B}, first, [A, X]) == {} && !Transparent(G, {B}, [A, X]);
  }

  lemma SilencedClosed(first: seq<set<nat>>, a: Automaton, look: Lookaheads)
    requires IsAutomaton(G, a) && a[0].items == {Item(0, 0), Item(1, 0), Item(2, 0)} && |first| > A && first[A] == {}
    requires LookClosed(G, {B}, first, a, look)
    ensures LookClosed(G, {B}, first, a, Silenced(look))
  {
    var l := Silenced(look);
    forall s: nat, it: Item
      ensures LookAt(l, s, it) == if s == 0 && (it == Item(1, 0) || it == Item(2, 0)) then {} else LookAt(look, s, it)
    {
    }
    forall s, it, r | 0 <= s < |a| && it in a[s].items && Calls(G, it, r)
      ensures LookLocal(G, {B}, first, l, s, it, r)
    {
      assert LookLocal(G, {B}, first, look, s, it, r);
      if s == 0 {
        SilencedLocal(first, look, it, r);
      }
    }
  }

  /** Whatever tables are generated for the grammar, their parser reports a syntax
      error at the token X, in a sentence that consists of X. */
  lemma SentenceRejected(first: seq<set<nat>>, a: Automaton, look: Lookaheads, t: Tables, depth: nat)
    requires IsFirst(G, ExplicitEmpty(G), first) && IsLook(G, ExplicitEmpty(G), first, a, look)
    requires Generated(G, a, look, t)
    ensures Sentence(G, [X]) && Run(t, depth, [X, 0], FreshParser, 1).Some?
    ensures Run(t, depth, [X, 0], FreshParser, 1).value.log == [SyntaxError(X)]
  {
    IsSentence();
    ErrorAtX(first, a, look, t);
    hide Generated, IsFirst, IsLook;
    assert Run(t, depth, [X, 0], FreshParser, 1) == Step(t, depth, [X, 0], FreshParser);
  }

  lemma ErrorAtX(first: seq<set<nat>>, a: Automaton, look: Lookaheads, t: Tables)
    requires IsFirst(G, ExplicitEmpty(G), first) && IsLook(G, ExplicitEmpty(G), first, a, look)
    requires Generated(G, a, look, t)
    ensures FindShiftAction(t, 0, X) == Some(ErrorAction(t))
  {
    NoLookahead(first, a, look);
    FirstState(a);
    assert StateOk(G, a, 0) && TokenActionOk(G, a, look, t, 0, X);
    NothingToDo(a, look);
    hide IsFirst, IsLook, IsClosure, FindShiftAction, Reduces, TablesFor, IsAutomaton;
  }

  lemma NothingToDo(a: Automaton, look: Lookaheads)
    requires |a| > 0 && a[0].items == {Item(0, 0), Item(1, 0), Item(2, 0)} && StateOk(G, a, 0)
    requires LookAt(look, 0, Item(2, 0)) == {}
    ensures X !in a[0].trans
    ensures forall r, b :: 0 <= r < |G.rules| ==> !Reduces(G, a, look, 0, CompleteItem(G, r), b)
  {
    forall r, b | 0 <= r < |G.rules| ensures !Reduces(G, a, look, 0, CompleteItem(G, r), b) {
      assert r == 0 || r == 1 || r == 2;
    }
  }

  /** So the parser accepts the sentence with no tree, at no stack depth. */
  lemma NotExact(first: seq<set<nat>>, a: Automaton, look: Lookaheads, t: Tables, depth: nat, tree: Tree, n: nat)
    requires IsFirst(G, ExplicitEmpty(G), first) && IsLook(G, ExplicitEmpty(G), first, a, look)
    requires Generated(G, a, look, t)
    ensures !AcceptsWith(t, depth, [X], tree, n)
  {
    SentenceRejected(first, a, look, t, depth);
    assert [X] + [0] == [X, 0];
    var q := Run(t, depth, [X, 0], FreshParser, n);
    if q.Some? {
      LogsComparable(t, depth, [X, 0], FreshParser, 1, n);
      HeadsAgree([SyntaxError(X)], q.value.log);
    }
  }

  lemma HeadsAgree(l: seq<Event>, k: seq<Event>)
    requires l != [] && (l <= k || k <= l)
    ensures k == [] || k[0] == l[0]
  {
  }

  // ---------------------------------------------------------------------------
  // The grammar has no conflicts

  ghost predicate Shape(basis: set<Item>, items: set<Item>) {
    || (basis == {Item(0, 0)} && items == {Item(0, 0), Item(1, 0), Item(2, 0)})
    || (basis == {Item(0, 1)} && items == {Item(0, 1), Item(1, 0), Item(2, 0)})
    || (basis == {Item(0, 2)} && items == {Item(0, 2)})
    || (basis == {Item(0, 3)} && items == {Item(0, 3)})
    || (basis == {Item(1, 1)} && items == {Item(1, 1)})
  }

  lemma ClosureShape(basis: set<Item>, items: set<Item>)
    requires IsClosure(G, basis, items)
    requires basis == {Item(0, 1)} || basis == {Item(0, 2)} || basis == {Item(0, 3)} || basis == {Item(1, 1)}
    ensures Shape(basis, items)
  {
    var all := if basis == {Item(0, 1)} then {Item(0, 1), Item(1, 0), Item(2, 0)} else basis;
    forall it, r: nat | it in all && Calls(G, it, r) ensures Item(r, 0) in all {
      CallsOf(it, r);
    }
    assert ItemsClosed(G, all) && items <= all;
    if basis == {Item(0, 1)} {
      assert Calls(G, Item(0, 1), 1) && Calls(G, Item(1, 0), 2);
      assert Item(0, 1) in items;
      assert Item(1, 0) in items;
    }
  }

  lemma GotoShape(basis: set<Item>, items: set<Item>, x: nat)
    requires Shape(basis, items) && exists it :: it in items && ShiftsOn(G, it, x)
    ensures var b := GotoBasis(G, items, x);
            b == {Item(0, 1)} || b == {Item(0, 2)} || b == {Item(0, 3)} || b == {Item(1, 1)}
  {
    var it :| it in items && ShiftsOn(G, it, x);
    assert Advance(it) in GotoBasis(G, items, x);
    forall j | j in items && ShiftsOn(G, j, x) ensures j == it {
    }
    assert GotoBasis(G, items, x) == {Advance(it)};
  }

  lemma FirstShape(a: Automaton)
    requires IsAutomaton(G, a)
    ensures Shape(a[0].basis, a[0].items)
  {
    FirstState(a);
    assert a[0].basis == {Item(0, 0)} by {
      assert G.rules[0].lhs == S;
      forall it ensures it in StartItems(G) <==> it == Item(0, 0) {
      }
    }
  }

  lemma {:induction false} StateShape(a: Automaton, k: nat)
    requires IsCanonical(G, a) && k < |a|
    ensures Shape(a[k].basis, a[k].items)
    decreases k
  {
    hide Shape, GotoBasis;
    assert StateOk(G, a, k);
    if k == 0 {
      FirstShape(a);
    } else {
      assert Entered(a, k);
      var s, x :| 0 <= s < k && x in a[s].trans && a[s].trans[x] == k;
      StateShape(a, s);
      assert StateOk(G, a, s);
      GotoShape(a[s].basis, a[s].items, x);
      ClosureShape(a[k].basis, a[k].items);
    }
  }

  lemma NoConflicts(a: Automaton, look: Lookaheads)
    requires IsCanonical(G, a)
    requires forall s, it, t :: 0 <= s < |a| && it in a[s].items && t in LookAt(look, s, it) ==> t < G.nterminal
    ensures ConflictFree(G, a, look)
  {
    hide IsCanonical, LookAt;
    forall s: nat, it, jt, t | Reduces(G, a, look, s, it, t) && Reduces(G, a, look, s, jt, t) ensures it == jt {
      StateShape(a, s);
    }
    forall s: nat, it, t | Reduces(G, a, look, s, it, t) ensures t !in a[s].trans {
      NoTokenShift(a, s, it, t);
    }
  }

  lemma NoTokenShift(a: Automaton, s: nat, it: Item, t: nat)
    requires IsCanonical(G, a) && s < |a| && it in a[s].items && IsComplete(G, it) && t < G.nterminal
    ensures t !in a[s].trans
  {
    StateShape(a, s);
    assert StateOk(G, a, s);
    ShapeShiftsNoToken(a[s].basis, a[s].items, it, t);
    hide IsCanonical, Shape, IsClosure;
  }

  lemma ShapeShiftsNoToken(basis: set<Item>, items: set<Item>, it: Item, t: nat)
    requires Shape(basis, items) && it in items && IsComplete(G, it) && t < G.nterminal
    ensures forall j :: j in items ==> !ShiftsOn(G, j, t)
  {
  }

  // ---------------------------------------------------------------------------
  // What the generator makes of it

  /** The sentence is refused at its only token, whatever the stack depth. */
  ghost predicate Refuses(t: Tables, depth: nat) {
    && Run(t, depth, [X, 0], FreshParser, 1).Some?
    && Run(t, depth, [X, 0], FreshParser, 1).value.log == [SyntaxError(X)]
    && forall tree, n :: !AcceptsWith(t, depth, [X], tree, n)
  }

  /** With or without default reductions: no conflicts, and yet not exact. */
  method GenerateAndRefuse(compress: bool) returns (t: Tables, clean: bool)
    ensures clean && IsParse(G, Parse, [X]) && !ExactParser(G, t)
    ensures forall depth: nat :: Refuses(t, depth)
  {
    hide *;
    GrammarOk();
    var n;
    ghost var first, a, look, b, l;
    t, n, clean, first, a, look, b, l := Generate(G, compress);
    GeneratedFacts(first, a, look, b, l, t);
    IsSentence();
    forall depth: nat ensures Refuses(t, depth) {
      GeneratedRefuses(first, b, l, t, depth);
    }
    RefusedNotExact(t);
  }

  lemma GeneratedFacts(first: seq<set<nat>>, a: Automaton, look: Lookaheads, b: Automaton, l: Lookaheads, t: Tables)
    requires IsLalr(G, first, a, look) && Delivered(G, first, b, l, t) && G.RhsFits()
    ensures ConflictFree(G, a, look) && IsFirst(G, ExplicitEmpty(G), first) && IsLook(G, ExplicitEmpty(G), first, b, l)
    ensures Generated(G, b, l, t)
  {
    hide IsCanonical, IsLook, IsFirst, Generated, ConflictFree, TablesFor, TablesChoose, GotosOnly, IsAutomaton;
    NoConflicts(a, look);
  }

  lemma GeneratedRefuses(first: seq<set<nat>>, b: Automaton, l: Lookaheads, t: Tables, depth: nat)
    requires IsFirst(G, ExplicitEmpty(G), first) && IsLook(G, ExplicitEmpty(G), first, b, l) && Generated(G, b, l, t)
    ensures Refuses(t, depth)
  {
    hide IsLook, IsFirst, Generated, AcceptsWith, Run;
    SentenceRejected(first, b, l, t, depth);
    forall tree, n ensures !AcceptsWith(t, depth, [X], tree, n) {
      NotExact(first, b, l, t, depth, tree, n);
    }
  }

  lemma RefusedNotExact(t: Tables)
    requires Refuses(t, 4) && IsParse(G, Parse, [X]) && TokensOnly(G, [X]) && StackNeed(Parse) <= 4
    ensures !ExactParser(G, t)
  {
    hide AcceptsWith, Run, IsParse, StackNeed;
    assert ExactParser(G, t) ==> ParsesExactly(G, t, 4, [X], Parse);
  }
}
