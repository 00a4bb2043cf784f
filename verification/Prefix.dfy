/** No token is shifted in vain: what has been kept always begins a sentential
    form of the grammar. */
module Prefix {
  import opened Grammars
  import opened FirstSets
  import opened Automata
  import opened Driver
  import opened Soundness

  // ---------------------------------------------------------------------------
  // Grafting a tree onto a leaf

  /** Replace the leaf at position `i` of the frontier. */
  lemma {:induction false} Graft(g: Grammar, t: Tree, i: nat, u: Tree) returns (v: Tree)
    requires ValidTree(g, t) && ValidTree(g, u) && i < |Yield(t)| && Yield(t)[i] == Root(g, u)
    ensures ValidTree(g, v) && Root(g, v) == Root(g, t)
    ensures Yield(v) == Yield(t)[..i] + Yield(u) + Yield(t)[i + 1..]
    ensures Size(v) + 1 == Size(t) + Size(u)
    decreases Size(t), 0
  {
    match t
    case Leaf(_) =>
      v := u;
    case Branch(r, ch) =>
      var ch' := GraftForest(g, ch, i, u);
      v := Branch(r, ch');
  }

  lemma {:induction false} GraftForest(g: Grammar, ts: seq<Tree>, i: nat, u: Tree) returns (vs: seq<Tree>)
    requires ValidForest(g, ts) && ValidTree(g, u) && i < |Yields(ts)| && Yields(ts)[i] == Root(g, u)
    ensures ValidForest(g, vs) && Roots(g, vs) == Roots(g, ts)
    ensures Yields(vs) == Yields(ts)[..i] + Yield(u) + Yields(ts)[i + 1..]
    ensures Sizes(vs) + 1 == Sizes(ts) + Size(u)
    decreases Sizes(ts), 1
  {
    hide ValidTree;
    var n := |Yield(ts[0])|;
    Splice(Yield(ts[0]), Yields(ts[1..]), i, Yield(u));
    if i < n {
      var v := Graft(g, ts[0], i, u);
      vs := [v] + ts[1..];
      assert vs[1..] == ts[1..];
    } else {
      var rest := GraftForest(g, ts[1..], i - n, u);
      vs := [ts[0]] + rest;
      assert vs[1..] == rest;
      RootsCons(g, ts, vs);
    }
  }

  lemma Splice(head: seq<nat>, tail: seq<nat>, i: nat, mid: seq<nat>)
    requires i < |head + tail|
    ensures var all := head + tail; var n := |head|;
            all[..i] + mid + all[i + 1..] ==
            if i < n then (head[..i] + mid + head[i + 1..]) + tail else head + (tail[..i - n] + mid + tail[i - n + 1..])
  {
    var all, n := head + tail, |head|;
    if i < n {
      assert all[..i] == head[..i] && all[i + 1..] == head[i + 1..] + tail;
    } else {
      assert all[..i] == head + tail[..i - n] && all[i + 1..] == tail[i - n + 1..];
    }
  }

  lemma RootsCons(g: Grammar, ts: seq<Tree>, vs: seq<Tree>)
    requires ts != [] && vs != [] && vs[0] == ts[0] && Roots(g, vs[1..]) == Roots(g, ts[1..])
    ensures Roots(g, vs) == Roots(g, ts)
  {
    assert |vs[1..]| == |Roots(g, vs[1..])| == |ts[1..]|;
    forall k | 0 <= k < |ts| ensures Roots(g, vs)[k] == Roots(g, ts)[k] {
      if k > 0 {
        assert Roots(g, vs[1..])[k - 1] == Root(g, vs[k]);
        assert Roots(g, ts[1..])[k - 1] == Root(g, ts[k]);
      }
    }
  }

  lemma {:induction false} LeavesYield(xs: seq<nat>)
    ensures Yields(Leaves(xs)) == xs
  {
    if xs != [] {
      LeavesYield(xs[1..]);
      assert Leaves(xs)[1..] == Leaves(xs[1..]);
    }
  }

  /** The one-step derivation by a rule. */
  lemma RuleTree(g: Grammar, r: nat) returns (t: Tree)
    requires g.WellFormed() && r < |g.rules|
    ensures ValidTree(g, t) && Root(g, t) == g.rules[r].lhs && Yield(t) == g.rules[r].rhs
  {
    var xs := g.rules[r].rhs;
    assert g.RuleOk(g.rules[r]);
    t := Branch(r, Leaves(xs));
    assert Roots(g, t.children) == xs;
    LeavesYield(xs);
  }

  // ---------------------------------------------------------------------------
  // Items in context

  /** The start symbol derives `kept`, then what follows the item's dot, then
      something. */
  ghost predicate InContext(g: Grammar, kept: seq<nat>, it: Item) {
    ItemOk(g, it) && exists t, z :: Derives(g, t, kept + g.rules[it.rule].rhs[it.dot..] + z)
  }

  ghost predicate Derives(g: Grammar, t: Tree, w: seq<nat>) {
    ValidTree(g, t) && Root(g, t) == g.start && Yield(t) == w
  }

  lemma GraftInto(g: Grammar, t: Tree, w: seq<nat>, i: nat, u: Tree) returns (v: Tree)
    requires Derives(g, t, w) && ValidTree(g, u) && i < |w| && w[i] == Root(g, u)
    ensures Derives(g, v, w[..i] + Yield(u) + w[i + 1..])
  {
    hide ValidTree, Yield;
    v := Graft(g, t, i, u);
  }

  lemma AroundNext(kept: seq<nat>, x: nat, rest: seq<nat>, z: seq<nat>, y: seq<nat>)
    ensures var w := kept + ([x] + rest) + z; var i := |kept|;
            && w[i] == x && w[..i] + y + w[i + 1..] == kept + y + (rest + z) == (kept + y) + rest + z
  {
    var w, i := kept + ([x] + rest) + z, |kept|;
    assert w[..i] == kept && w[i + 1..] == rest + z;
  }

  lemma IntoContext(g: Grammar, kept: seq<nat>, it: Item, t: Tree, z: seq<nat>)
    requires ItemOk(g, it) && Derives(g, t, kept + g.rules[it.rule].rhs[it.dot..] + z)
    ensures InContext(g, kept, it)
  {
  }

  lemma AfterDot(g: Grammar, j: Item)
    requires CanShift(g, j)
    ensures g.rules[j.rule].rhs[j.dot..] == [Next(g, j)] + Rest(g, j) && Rest(g, j) == g.rules[j.rule].rhs[j.dot + 1..]
  {
  }

  /** A member that calls for a rule brings the rule's start into context. */
  lemma CalledInContext(g: Grammar, kept: seq<nat>, j: Item, r: nat)
    requires g.WellFormed() && InContext(g, kept, j) && Calls(g, j, r)
    ensures InContext(g, kept, Item(r, 0))
  {
    var t, z :| Derives(g, t, kept + g.rules[j.rule].rhs[j.dot..] + z);
    AfterDot(g, j);
    var u := RuleTree(g, r);
    hide ValidTree, Yield, Derives, InContext, Rest;
    AroundNext(kept, Next(g, j), Rest(g, j), z, Yield(u));
    var v := GraftInto(g, t, kept + ([Next(g, j)] + Rest(g, j)) + z, |kept|, u);
    assert g.rules[r].rhs[0..] == Yield(u);
    IntoContext(g, kept, Item(r, 0), v, Rest(g, j) + z);
  }

  /** Shifting moves the dot and adds what the shifted symbol derives. */
  lemma ShiftedInContext(g: Grammar, kept: seq<nat>, j: Item, u: Tree)
    requires InContext(g, kept, j) && ShiftsOn(g, j, Root(g, u)) && ValidTree(g, u)
    ensures InContext(g, kept + Yield(u), Advance(j))
  {
    var t, z :| Derives(g, t, kept + g.rules[j.rule].rhs[j.dot..] + z);
    AfterDot(g, j);
    hide ValidTree, Yield, Derives, InContext, Rest;
    AroundNext(kept, Next(g, j), Rest(g, j), z, Yield(u));
    var v := GraftInto(g, t, kept + ([Next(g, j)] + Rest(g, j)) + z, |kept|, u);
    IntoContext(g, kept + Yield(u), Advance(j), v, z);
  }

  lemma ClosureInContext(g: Grammar, kept: seq<nat>, basis: set<Item>, items: set<Item>)
    requires g.WellFormed() && IsClosure(g, basis, items) && forall it :: it in basis ==> InContext(g, kept, it)
    ensures forall it :: it in items ==> InContext(g, kept, it)
  {
    var good := set it | it in items && InContext(g, kept, it);
    forall it, r: nat | it in good && Calls(g, it, r) ensures Item(r, 0) in good {
      CalledInContext(g, kept, it, r);
    }
    assert ItemsClosed(g, good);
    assert items <= good;
  }

  lemma StartInContext(g: Grammar, it: Item)
    requires g.WellFormed() && it in StartItems(g)
    ensures InContext(g, [], it)
  {
    var t := RuleTree(g, it.rule);
    var xs := g.rules[it.rule].rhs;
    assert [] + xs[it.dot..] + [] == xs;
    assert Derives(g, t, [] + xs[it.dot..] + []);
  }

  /** Every member of the top state fits what is on the stack. */
  lemma {:induction false} StackInContext(g: Grammar, a: Automaton, stack: seq<Entry>)
    requires g.WellFormed() && IsAutomaton(g, a) && StackOk(g, a, stack) && stack != []
    ensures forall it :: it in a[stack[|stack| - 1].stateno].items ==> InContext(g, Kept(stack), it)
    decreases |stack|
  {
    var n := |stack| - 1;
    var s := stack[n].stateno;
    assert StateOk(g, a, s);
    forall it | it in a[s].basis ensures InContext(g, Kept(stack), it) {
      if n == 0 {
        assert stack[1..] == [];
        StartInContext(g, it);
      } else {
        var below := stack[..n];
        LowerStackOk(g, a, stack, n);
        StackInContext(g, a, below);
        assert Linked(a, stack[n - 1], stack[n]) && StateOk(g, a, stack[n - 1].stateno);
        var j :| j in a[stack[n - 1].stateno].items && ShiftsOn(g, j, stack[n].major) && Advance(j) == it;
        ShiftedInContext(g, Kept(below), j, stack[n].minor);
        KeptPush(below, stack[n]);
        assert below + [stack[n]] == stack;
      }
    }
    ClosureInContext(g, Kept(stack), a[s].basis, a[s].items);
  }

  /** Some tree rooted in the start symbol has a frontier beginning with `kept`. */
  ghost predicate ViablePrefix(g: Grammar, kept: seq<nat>) {
    exists t :: ValidTree(g, t) && Root(g, t) == g.start && kept <= Yield(t)
  }

  lemma StackIsViable(g: Grammar, a: Automaton, stack: seq<Entry>)
    requires g.WellFormed() && IsAutomaton(g, a) && StackOk(g, a, stack) && stack != []
    ensures ViablePrefix(g, Kept(stack))
  {
    var n := |stack| - 1;
    if n == 0 {
      assert stack[1..] == [];
      assert ValidTree(g, Leaf(g.start)) && Kept(stack) <= Yield(Leaf(g.start));
    } else {
      assert Linked(a, stack[n - 1], stack[n]) && StateOk(g, a, stack[n - 1].stateno) &&
        StateOk(g, a, stack[n].stateno);
      var j :| j in a[stack[n - 1].stateno].items && ShiftsOn(g, j, stack[n].major);
      var it := Advance(j);
      assert it in a[stack[n].stateno].items;
      StackInContext(g, a, stack);
      InContextViable(g, Kept(stack), it);
    }
  }

  lemma InContextViable(g: Grammar, kept: seq<nat>, it: Item)
    requires InContext(g, kept, it)
    ensures ViablePrefix(g, kept)
  {
    var t, z :| Derives(g, t, kept + g.rules[it.rule].rhs[it.dot..] + z);
    assert kept <= Yield(t);
  }

  /** At every moment of every run, the tokens kept so far begin something the
      start symbol derives: a token that cannot continue is never shifted. */
  lemma RunIsViable(g: Grammar, a: Automaton, look: Lookaheads, t: Tables, depth: nat, input: seq<nat>, n: nat)
    requires Generated(g, a, look, t) && forall i :: 0 <= i < |input| ==> input[i] < g.nterminal
    ensures var q := Run(t, depth, input, FreshParser, n);
            q.Some? && (q.value.stack != [] ==> ViablePrefix(g, Kept(q.value.stack)))
  {
    RunSound(g, a, look, t, depth, input, FreshParser, n);
    var q := Run(t, depth, input, FreshParser, n).value;
    if q.stack != [] {
      StackIsViable(g, a, q.stack);
    }
  }
}
