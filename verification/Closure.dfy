/** `Configlist_closure`: the closure of a basis, with the lookahead tokens and
    the propagation links that arise inside the state. */
module Closures {
  import opened Grammars
  import opened FirstSets
  import opened Automata
  import opened Sorting

  /** Own lookahead tokens of a configuration: those it came with, and what can
      follow its nonterminal in a member that calls for it. */
  ghost predicate Seeded(g: Grammar, lambda: set<nat>, first: seq<set<nat>>, calls: set<(Item, nat)>, base: map<Item,
                         set<nat>>,
                         it: Item, t: nat)
  {
    || (it in base && t in base[it])
    || (it.dot == 0 && exists j :: (j, it.rule) in calls && SeedsFrom(g, lambda, first, j, t))
  }

  predicate SeedsFrom(g: Grammar, lambda: set<nat>, first: seq<set<nat>>, j: Item, t: nat) {
    CanShift(g, j) && t in FirstOfSeq(g, lambda, first, Rest(g, j))
  }

  /** `j` passes its lookahead on to the rules it calls for. */
  predicate Passes(g: Grammar, lambda: set<nat>, j: Item) {
    CanShift(g, j) && Transparent(g, lambda, Rest(g, j))
  }

  ghost predicate SeedsExact(g: Grammar, lambda: set<nat>, first: seq<set<nat>>, calls: set<(Item, nat)>,
                             base: map<Item, set<nat>>,
                             fws: map<Item, set<nat>>)
  {
    forall it, t :: it in fws ==> (t in fws[it] <==> Seeded(g, lambda, first, calls, base, it, t))
  }

  ghost predicate LinksExact(g: Grammar, lambda: set<nat>, calls: set<(Item, nat)>, fplp: map<Item, seq<Item>>) {
    forall j, it :: j in fplp ==> (it in fplp[j] <==> it.dot == 0 && (j, it.rule) in calls && Passes(g, lambda, j))
  }

  /** All pairs of a member and a rule it calls for. */
  ghost function AllCalls(g: Grammar, items: set<Item>): set<(Item, nat)> {
    set j, r: nat | j in items && 0 <= r < |g.rules| && Calls(g, j, r) :: (j, r)
  }

  ghost function AllItems(g: Grammar): set<Item> {
    set r: nat, d: nat | 0 <= r < |g.rules| && 0 <= d <= |g.rules[r].rhs| :: Item(r, d)
  }

  /** The configuration list under construction. */
  datatype Configs = Configs(current: seq<Item>, fws: map<Item, set<nat>>, fplp: map<Item, seq<Item>>)

  ghost predicate ConfigsOk(g: Grammar, lambda: set<nat>, first: seq<set<nat>>, base: map<Item, set<nat>>,
                            calls: set<(Item, nat)>, c: Configs) {
    && NoDup(c.current)
    && c.fws.Keys == Elems(c.current) && c.fplp.Keys == Elems(c.current)
    && (forall it :: it in c.current ==> ItemOk(g, it))
    && base.Keys <= c.fws.Keys
    && (forall s :: base.Keys <= s && ItemsClosed(g, s) ==> Elems(c.current) <= s)
    && (forall j, r :: (j, r) in calls ==> j in c.current && Calls(g, j, r) && Item(r, 0) in c.current)
    && SeedsExact(g, lambda, first, calls, base, c.fws)
    && LinksExact(g, lambda, calls, c.fplp)
  }

  /** The loop over what follows the nonterminal after a dot. */
  method ScanRest(g: Grammar, lambda: set<nat>, first: seq<set<nat>>, xs: seq<nat>, fws: set<nat>)
    returns (fws': set<nat>, atEnd: bool)
    requires FamilyOk(g, first) && forall i :: 0 <= i < |xs| ==> xs[i] < g.NSymbol()
    ensures fws' == fws + FirstOfSeq(g, lambda, first, xs)
    ensures atEnd <==> Transparent(g, lambda, xs)
  {
    fws' := fws;
    var i := 0;
    assert xs[0..] == xs;
    while i < |xs|
      invariant 0 <= i <= |xs|
      invariant fws' + FirstOfSeq(g, lambda, first, xs[i..]) == fws + FirstOfSeq(g, lambda, first, xs)
      invariant Transparent(g, lambda, xs[..i])
    {
      var xsp := xs[i];
      assert xs[i..][1..] == xs[i + 1..];
      if g.IsTerminal(xsp) {
        fws' := fws' + {xsp};
        break;
      } else {
        fws' := fws' + first[xsp];
        if xsp !in lambda { break; }
      }
      assert xs[..i + 1] == xs[..i] + [xsp];
      i := i + 1;
    }
    atEnd := i == |xs|;
    assert atEnd ==> xs[..i] == xs;
  }

  /** `Configlist_add` of the start of a rule that a member calls for. */
  function Added(c: Configs, r: nat): Configs {
    var it := Item(r, 0);
    if it in c.fws then c else Configs(c.current + [it], c.fws[it := {}], c.fplp[it := []])
  }

  lemma AddedOk(g: Grammar, lambda: set<nat>, first: seq<set<nat>>, base: map<Item, set<nat>>, calls: set<(Item, nat)>,
                c: Configs,
                j: Item, r: nat)
    requires ConfigsOk(g, lambda, first, base, calls, c) && j in c.current && Calls(g, j, r)
    ensures ConfigsOk(g, lambda, first, base, calls, Added(c, r))
    ensures var d := Added(c, r);
            c.current <= d.current && Item(r, 0) in d.current && Item(r, 0) in d.fws && j in d.current && j in d.fplp
  {
    var it := Item(r, 0);
    var d := Added(c, r);
    if it !in c.fws {
      NewSeeds(g, lambda, first, base, calls, c, r);
      NewLinks(g, lambda, first, base, calls, c, r);
      hide SeedsExact, LinksExact;
      assert it !in c.current;
      assert Elems(d.current) == Elems(c.current) + {it};
      forall s | base.Keys <= s && ItemsClosed(g, s) ensures Elems(d.current) <= s {
        assert j in Elems(c.current) && j in s;
      }
    }
  }

  lemma NewSeeds(g: Grammar, lambda: set<nat>, first: seq<set<nat>>, base: map<Item, set<nat>>, calls: set<(Item, nat)>,
                 c: Configs, r: nat)
    requires ConfigsOk(g, lambda, first, base, calls, c) && Item(r, 0) !in c.fws
    ensures SeedsExact(g, lambda, first, calls, base, Added(c, r).fws)
  {
    var d := Added(c, r);
    forall i, t | i in d.fws ensures t in d.fws[i] <==> Seeded(g, lambda, first, calls, base, i, t) {
      if i in c.fws {
        assert t in c.fws[i] <==> Seeded(g, lambda, first, calls, base, i, t);
      }
    }
  }

  lemma NewLinks(g: Grammar, lambda: set<nat>, first: seq<set<nat>>, base: map<Item, set<nat>>, calls: set<(Item, nat)>,
                 c: Configs, r: nat)
    requires ConfigsOk(g, lambda, first, base, calls, c) && Item(r, 0) !in c.fws
    ensures LinksExact(g, lambda, calls, Added(c, r).fplp)
  {
    var d := Added(c, r);
    forall k, i | k in d.fplp ensures i in d.fplp[k] <==> i.dot == 0 && (k, i.rule) in calls && Passes(g, lambda, k) {
      if k in c.fplp {
        assert i in c.fplp[k] <==> i.dot == 0 && (k, i.rule) in calls && Passes(g, lambda, k);
      } else {
        assert k == Item(r, 0);
        assert (k, i.rule) !in calls;
      }
    }
  }

  /** The member's contribution to the rule: its scanned tokens, and a link if the
      scan got to the end. */
  function Contributed(c: Configs, j: Item, r: nat, fws: set<nat>, atEnd: bool): Configs
    requires j in c.fplp
  {
    var it := Item(r, 0);
    Configs(c.current, c.fws[it := fws], if atEnd then c.fplp[j := [it] + c.fplp[j]] else c.fplp)
  }

  lemma ContributedOk(g: Grammar, lambda: set<nat>, first: seq<set<nat>>, base: map<Item, set<nat>>,
                      calls: set<(Item, nat)>, c: Configs,
                      j: Item, r: nat)
    requires ConfigsOk(g, lambda, first, base, calls, c) && j in c.current && Calls(g, j, r) && Item(r, 0) in c.current
    ensures var fws := c.fws[Item(r, 0)] + FirstOfSeq(g, lambda, first, Rest(g, j));
            ConfigsOk(g, lambda, first, base, calls + {(j, r)},
              Contributed(c, j, r, fws, Transparent(g, lambda, Rest(g, j))))
  {
    var it := Item(r, 0);
    var calls' := calls + {(j, r)};
    var d := Contributed(c, j, r, c.fws[it] + FirstOfSeq(g, lambda, first, Rest(g, j)),
      Transparent(g, lambda, Rest(g, j)));
    ContributedSeeds(g, lambda, first, base, calls, c, j, r);
    ContributedLinks(g, lambda, calls, c.fplp, j, r);
    hide SeedsExact, LinksExact;
  }

  lemma ContributedSeeds(g: Grammar, lambda: set<nat>, first: seq<set<nat>>, base: map<Item, set<nat>>,
                         calls: set<(Item, nat)>, c: Configs,
                         j: Item, r: nat)
    requires SeedsExact(g, lambda, first, calls, base, c.fws) && Calls(g, j, r) && Item(r, 0) in c.fws
    ensures SeedsExact(g, lambda, first, calls + {(j, r)}, base,
                       c.fws[Item(r, 0) := c.fws[Item(r, 0)] + FirstOfSeq(g, lambda, first, Rest(g, j))])
  {
    var it, calls' := Item(r, 0), calls + {(j, r)};
    var fws := c.fws[it := c.fws[it] + FirstOfSeq(g, lambda, first, Rest(g, j))];
    forall i, t | i in fws ensures t in fws[i] <==> Seeded(g, lambda, first, calls', base, i, t) {
      assert t in c.fws[i] <==> Seeded(g, lambda, first, calls, base, i, t);
      if i == it && SeedsFrom(g, lambda, first, j, t) {
        assert (j, i.rule) in calls';
      }
    }
  }

  lemma ContributedLinks(g: Grammar, lambda: set<nat>, calls: set<(Item, nat)>, fplp: map<Item, seq<Item>>, j: Item,
                         r: nat)
    requires LinksExact(g, lambda, calls, fplp) && Calls(g, j, r) && j in fplp
    ensures LinksExact(g, lambda, calls + {(j, r)},
                       if Transparent(g, lambda, Rest(g, j)) then fplp[j := [Item(r, 0)] + fplp[j]] else fplp)
  {
    var calls' := calls + {(j, r)};
    var fplp' := if Transparent(g, lambda, Rest(g, j)) then fplp[j := [Item(r, 0)] + fplp[j]] else fplp;
    forall k: Item, i: Item | k in fplp'
      ensures i in fplp'[k] <==> i.dot == 0 && (k, i.rule) in calls' && Passes(g, lambda, k)
    {
      assert i in fplp[k] <==> i.dot == 0 && (k, i.rule) in calls && Passes(g, lambda, k);
    }
    assert LinksExact(g, lambda, calls', fplp');
  }

  /** What the closure of a state ends up with. */
  ghost predicate ClosureBuilt(g: Grammar, lambda: set<nat>, first: seq<set<nat>>, base: map<Item, set<nat>>,
                               c: Configs) {
    && NoDup(c.current)
    && (forall it :: it in c.current ==> ItemOk(g, it))
    && IsClosure(g, base.Keys, Elems(c.current))
    && c.fws.Keys == c.fplp.Keys == Elems(c.current)
    && SeedsExact(g, lambda, first, AllCalls(g, Elems(c.current)), base, c.fws)
    && LinksExact(g, lambda, AllCalls(g, Elems(c.current)), c.fplp)
  }

  lemma ClosureFinished(g: Grammar, lambda: set<nat>, first: seq<set<nat>>, base: map<Item, set<nat>>,
                        calls: set<(Item, nat)>, c: Configs)
    requires ConfigsOk(g, lambda, first, base, calls, c)
    requires forall k, r: nat :: 0 <= k < |c.current| && Calls(g, c.current[k], r) ==> (c.current[k], r) in calls
    ensures ClosureBuilt(g, lambda, first, base, c)
  {
    var all := AllCalls(g, Elems(c.current));
    forall p ensures p in calls <==> p in all {
      assert p == (p.0, p.1);
      if p in all {
        var k :| 0 <= k < |c.current| && c.current[k] == p.0;
      }
    }
    assert calls == all;
    forall it, r: nat | it in Elems(c.current) && Calls(g, it, r) ensures Item(r, 0) in Elems(c.current) {
      var k :| 0 <= k < |c.current| && c.current[k] == it;
      assert (c.current[k], r) in calls;
    }
  }

  /** One call of one configuration. */
  method CallRule(g: Grammar, lambda: set<nat>, first: seq<set<nat>>, ghost base: map<Item, set<nat>>,
                  ghost calls: set<(Item, nat)>,
                  c: Configs, j: Item, r: nat)
    returns (d: Configs)
    requires g.WellFormed() && FamilyOk(g, first)
    requires ConfigsOk(g, lambda, first, base, calls, c) && j in c.current && Calls(g, j, r)
    ensures ConfigsOk(g, lambda, first, base, calls + {(j, r)}, d)
    ensures c.current <= d.current
  {
    hide ConfigsOk;
    assert g.RuleOk(g.rules[j.rule]);
    AddedOk(g, lambda, first, base, calls, c, j, r);
    d := Added(c, r);
    var fws, atEnd := ScanRest(g, lambda, first, Rest(g, j), d.fws[Item(r, 0)]);
    ContributedOk(g, lambda, first, base, calls, d, j, r);
    d := Contributed(d, j, r, fws, atEnd);
  }

  /** One configuration's turn: every rule of the nonterminal after its dot. */
  method CloseOne(g: Grammar, lambda: set<nat>, first: seq<set<nat>>, ghost base: map<Item, set<nat>>,
                  ghost calls: set<(Item, nat)>,
                  c: Configs, j: Item)
    returns (d: Configs, ghost calls': set<(Item, nat)>)
    requires g.WellFormed() && FamilyOk(g, first)
    requires ConfigsOk(g, lambda, first, base, calls, c) && j in c.current
    ensures ConfigsOk(g, lambda, first, base, calls', d)
    ensures c.current <= d.current && calls <= calls'
    ensures forall r: nat :: Calls(g, j, r) ==> (j, r) in calls'
  {
    d, calls' := c, calls;
    assert ItemOk(g, j);
    hide ConfigsOk, FamilyOk;
    if j.dot < |g.rules[j.rule].rhs| {
      var sp := g.rules[j.rule].rhs[j.dot];
      for r := |g.rules| downto 0
        invariant ConfigsOk(g, lambda, first, base, calls', d)
        invariant c.current <= d.current && calls <= calls'
        invariant forall q: nat :: r <= q && Calls(g, j, q) ==> (j, q) in calls'
      {
        if g.rules[r].lhs == sp {
          d := CallRule(g, lambda, first, base, calls', d, j, r);
          calls' := calls' + {(j, r)};
        }
      }
    }
  }

  lemma CurrentAt(g: Grammar, lambda: set<nat>, first: seq<set<nat>>, base: map<Item, set<nat>>,
                  calls: set<(Item, nat)>, c: Configs, i: nat)
    requires ConfigsOk(g, lambda, first, base, calls, c) && i < |c.current|
    ensures c.current[i] in AllItems(g) && c.current[i] !in c.current[..i]
  {
    assert ItemOk(g, c.current[i]);
  }

  method Closure(g: Grammar, lambda: set<nat>, first: seq<set<nat>>, basis: seq<Item>, base: map<Item, set<nat>>)
    returns (c: Configs)
    requires g.WellFormed() && FamilyOk(g, first)
    requires NoDup(basis) && base.Keys == Elems(basis) && forall it :: it in basis ==> ItemOk(g, it)
    ensures ClosureBuilt(g, lambda, first, base, c)
  {
    c := Configs(basis, base, map it | it in base :: []);
    ghost var calls: set<(Item, nat)> := {};
    var i := 0;
    while i < |c.current|
      invariant 0 <= i <= |c.current|
      invariant ConfigsOk(g, lambda, first, base, calls, c)
      invariant forall k, r: nat :: 0 <= k < i && Calls(g, c.current[k], r) ==> (c.current[k], r) in calls
      decreases AllItems(g) - Elems(c.current[..i])
    {
      ghost var done, it := c.current[..i], c.current[i];
      CurrentAt(g, lambda, first, base, calls, c, i);
      hide ConfigsOk, FamilyOk;
      c, calls := CloseOne(g, lambda, first, base, calls, c, c.current[i]);
      i := i + 1;
      assert c.current[..i] == done + [it];
      assert Elems(done + [it]) == Elems(done) + {it};
    }
    ClosureFinished(g, lambda, first, base, calls, c);
  }
}
