/** `FindFirstSets`: the lambda flags and the first sets of the nonterminals. */
module FirstSets {
  import opened Grammars

  // ---------------------------------------------------------------------------
  // Specification

  /** The nonterminals with an explicitly empty rule. */
  function ExplicitEmpty(g: Grammar): set<nat> {
    set r | 0 <= r < |g.rules| && g.rules[r].rhs == [] :: g.rules[r].lhs
  }

  function FirstAt(first: seq<set<nat>>, x: nat): set<nat> {
    if x < |first| then first[x] else {}
  }

  /** The tokens the scan of a symbol string collects: it stops at a token and at
      a nonterminal whose lambda flag is clear. */
  function FirstOfSeq(g: Grammar, lambda: set<nat>, first: seq<set<nat>>, xs: seq<nat>): set<nat> {
    if xs == [] then {}
    else if g.IsTerminal(xs[0]) then {xs[0]}
    else FirstAt(first, xs[0]) + (if xs[0] in lambda then FirstOfSeq(g, lambda, first, xs[1..]) else {})
  }

  /** The scan runs off the end of the string. */
  predicate Transparent(g: Grammar, lambda: set<nat>, xs: seq<nat>) {
    forall i :: 0 <= i < |xs| ==> !g.IsTerminal(xs[i]) && xs[i] in lambda
  }

  predicate FamilyOk(g: Grammar, first: seq<set<nat>>) {
    |first| == g.NSymbol() && forall x :: 0 <= x < |first| ==> forall t :: t in first[x] ==> t < g.nterminal
  }

  predicate FirstClosed(g: Grammar, lambda: set<nat>, first: seq<set<nat>>) {
    forall r :: 0 <= r < |g.rules| ==>
                  FirstOfSeq(g, lambda, first, g.rules[r].rhs) <= FirstAt(first, g.rules[r].lhs)
  }

  predicate Below(a: seq<set<nat>>, b: seq<set<nat>>) {
    |a| == |b| && forall x :: 0 <= x < |a| ==> a[x] <= b[x]
  }

  /** The least family of token sets closed under the rules. */
  ghost predicate IsFirst(g: Grammar, lambda: set<nat>, first: seq<set<nat>>) {
    && FamilyOk(g, first)
    && FirstClosed(g, lambda, first)
    && forall fam :: FamilyOk(g, fam) && FirstClosed(g, lambda, fam) ==> Below(first, fam)
  }

  // ---------------------------------------------------------------------------
  // The computation

  /** How far the lambda loop gets along a right-hand side: it breaks at every
      nonterminal, and at every token whose flag is clear. */
  method LambdaScan(g: Grammar, lambda: set<nat>, rhs: seq<nat>) returns (i: nat)
    ensures i <= |rhs|
    ensures forall q :: 0 <= q < i ==> g.IsTerminal(rhs[q]) && rhs[q] in lambda
    ensures i < |rhs| ==> !g.IsTerminal(rhs[i]) || rhs[i] !in lambda
    ensures (forall x :: x in lambda ==> !g.IsTerminal(x)) ==> (i == |rhs| <==> rhs == [])
  {
    i := 0;
    while i < |rhs| && g.IsTerminal(rhs[i]) && rhs[i] in lambda
      invariant i <= |rhs|
      invariant forall q :: 0 <= q < i ==> g.IsTerminal(rhs[q]) && rhs[q] in lambda
    {
      i := i + 1;
    }
    assert i > 0 ==> g.IsTerminal(rhs[0]) && rhs[0] in lambda;
  }

  lemma NothingTerminalIsEmpty(g: Grammar)
    requires g.WellFormed()
    ensures forall x :: x in ExplicitEmpty(g) ==> !g.IsTerminal(x)
  {
    forall x | x in ExplicitEmpty(g) ensures !g.IsTerminal(x) {
      var r :| 0 <= r < |g.rules| && g.rules[r].lhs == x;
      assert g.RuleOk(g.rules[r]);
    }
  }

  method FindLambdas(g: Grammar) returns (lambda: set<nat>)
    requires g.WellFormed()
    ensures lambda == ExplicitEmpty(g)
  {
    lambda := {};
    var progress := true;
    while progress
      invariant lambda <= ExplicitEmpty(g)
      invariant !progress ==> ExplicitEmpty(g) <= lambda
      decreases ExplicitEmpty(g) - lambda, progress
    {
      progress := false;
      ghost var before := lambda;
      for k := 0 to |g.rules|
        invariant before <= lambda <= ExplicitEmpty(g)
        invariant progress <==> lambda != before
        invariant forall r :: 0 <= r < k && g.rules[r].rhs == [] ==> g.rules[r].lhs in lambda
      {
        var rp := g.rules[k];
        if rp.lhs !in lambda {
          var i := LambdaScan(g, lambda, rp.rhs);
          if i == |rp.rhs| {
            NothingTerminalIsEmpty(g);
            lambda := lambda + {rp.lhs};
            progress := true;
          }
        }
      }
    }
  }

  /** One rule's turn in the first-set loop (`SetAdd` and `SetUnion` on the
      left-hand side's set, walking along the right-hand side). */
  method ScanRule(g: Grammar, lambda: set<nat>, first: seq<set<nat>>, rp: Rule)
    returns (first': seq<set<nat>>, progress: bool)
    requires g.WellFormed() && g.RuleOk(rp) && FamilyOk(g, first)
    ensures first' == first[rp.lhs := first[rp.lhs] + FirstOfSeq(g, lambda, first, rp.rhs)]
    ensures progress <==> first' != first
    ensures FamilyOk(g, first')
  {
    var s1 := rp.lhs;
    first', progress := first, false;
    var i := 0;
    assert rp.rhs[0..] == rp.rhs;
    ghost var goal := first[s1] + FirstOfSeq(g, lambda, first, rp.rhs);
    while i < |rp.rhs|
      invariant 0 <= i <= |rp.rhs|
      invariant FamilyOk(g, first')
      invariant first' == first[s1 := first'[s1]] && first[s1] <= first'[s1]
      invariant progress <==> first'[s1] != first[s1]
      invariant first'[s1] + FirstOfSeq(g, lambda, first, rp.rhs[i..]) == goal
    {
      var s2 := rp.rhs[i];
      assert rp.rhs[i..][1..] == rp.rhs[i + 1..];
      if g.IsTerminal(s2) {
        progress := progress || s2 !in first'[s1];
        first' := first'[s1 := first'[s1] + {s2}];
        break;
      } else if s1 == s2 {
        if s1 !in lambda { break; }
      } else {
        progress := progress || !(first'[s2] <= first'[s1]);
        first' := first'[s1 := first'[s1] + first'[s2]];
        if s2 !in lambda { break; }
      }
      i := i + 1;
    }
    assert first'[s1] == goal;
    assert first'[s1] == first[s1] ==> first' == first;
  }

  ghost function Pairs(first: seq<set<nat>>): set<(nat, nat)> {
    set x: nat, t: nat | x < |first| && t in first[x] :: (x, t)
  }

  ghost function AllPairs(g: Grammar): set<(nat, nat)> {
    set x: nat, t: nat | x < g.NSymbol() && t < g.nterminal :: (x, t)
  }

  lemma PairsWithin(g: Grammar, first: seq<set<nat>>)
    requires FamilyOk(g, first)
    ensures Pairs(first) <= AllPairs(g)
  {
  }

  lemma PairsGrow(a: seq<set<nat>>, b: seq<set<nat>>)
    requires Below(a, b)
    ensures Pairs(a) <= Pairs(b)
    ensures a != b ==> Pairs(a) < Pairs(b)
  {
    if a != b {
      var x :| 0 <= x < |a| && a[x] != b[x];
      var t :| t in b[x] && t !in a[x];
      assert (x, t) in Pairs(b) && (x, t) !in Pairs(a);
    }
  }

  lemma {:induction false} FirstOfSeqMonotone(g: Grammar, lambda: set<nat>, a: seq<set<nat>>, b: seq<set<nat>>,
                                              xs: seq<nat>)
    requires Below(a, b)
    ensures FirstOfSeq(g, lambda, a, xs) <= FirstOfSeq(g, lambda, b, xs)
  {
    if xs != [] {
      FirstOfSeqMonotone(g, lambda, a, b, xs[1..]);
    }
  }

  /** A rule's turn stays below every closed family. */
  lemma ScanStaysBelow(g: Grammar, lambda: set<nat>, first: seq<set<nat>>, fam: seq<set<nat>>, r: nat)
    requires g.WellFormed() && r < |g.rules| && FamilyOk(g, first)
    requires FamilyOk(g, fam) && FirstClosed(g, lambda, fam) && Below(first, fam)
    ensures var rp := g.rules[r];
            Below(first[rp.lhs := first[rp.lhs] + FirstOfSeq(g, lambda, first, rp.rhs)], fam)
  {
    assert g.RuleOk(g.rules[r]);
    FirstOfSeqMonotone(g, lambda, first, fam, g.rules[r].rhs);
  }

  /** Below every closed family. */
  ghost predicate BelowClosed(g: Grammar, lambda: set<nat>, first: seq<set<nat>>) {
    forall fam :: FamilyOk(g, fam) && FirstClosed(g, lambda, fam) ==> Below(first, fam)
  }

  lemma ScanKeepsBelow(g: Grammar, lambda: set<nat>, first: seq<set<nat>>, r: nat)
    requires g.WellFormed() && r < |g.rules| && FamilyOk(g, first) && BelowClosed(g, lambda, first)
    requires g.RuleOk(g.rules[r])
    ensures var rp := g.rules[r];
            BelowClosed(g, lambda, first[rp.lhs := first[rp.lhs] + FirstOfSeq(g, lambda, first, rp.rhs)])
  {
    var rp := g.rules[r];
    forall fam | FamilyOk(g, fam) && FirstClosed(g, lambda, fam)
      ensures Below(first[rp.lhs := first[rp.lhs] + FirstOfSeq(g, lambda, first, rp.rhs)], fam)
    {
      ScanStaysBelow(g, lambda, first, fam, r);
    }
  }

  method FindFirstSets(g: Grammar) returns (lambda: set<nat>, first: seq<set<nat>>)
    requires g.WellFormed()
    ensures lambda == ExplicitEmpty(g)
    ensures IsFirst(g, lambda, first)
  {
    lambda := FindLambdas(g);
    first := seq(g.NSymbol(), _ => {});
    var progress := true;
    while progress
      invariant FamilyOk(g, first) && BelowClosed(g, lambda, first)
      invariant !progress ==> FirstClosed(g, lambda, first)
      decreases AllPairs(g) - Pairs(first), progress
    {
      progress := false;
      ghost var before := first;
      for k := 0 to |g.rules|
        invariant FamilyOk(g, first) && Below(before, first) && BelowClosed(g, lambda, first)
        invariant progress <==> first != before
        invariant !progress ==> forall r :: 0 <= r < k ==>
                                              FirstOfSeq(g, lambda, first, g.rules[r].rhs)
                                              <= FirstAt(first, g.rules[r].lhs)
      {
        hide BelowClosed, FirstClosed, FirstOfSeq;
        assert g.RuleOk(g.rules[k]);
        ScanKeepsBelow(g, lambda, first, k);
        ghost var prev := first;
        var changed;
        first, changed := ScanRule(g, lambda, first, g.rules[k]);
        if changed {
          progress := true;
          PairsGrow(before, prev);
          PairsGrow(prev, first);
        }
      }
      PairsGrow(before, first);
      PairsWithin(g, first);
    }
  }

  // ---------------------------------------------------------------------------
  // What the flags and the sets mean

  ghost predicate Nullable(g: Grammar, x: nat) {
    exists t :: ValidTree(g, t) && Root(g, t) == x && Yield(t) == []
  }

  ghost predicate BeginsWith(g: Grammar, x: nat, token: nat) {
    exists t :: ValidTree(g, t) && Root(g, t) == x && |Yield(t)| > 0 && Yield(t)[0] == token
  }

  ghost function EmptyTree(g: Grammar, x: nat): (t: Tree)
    requires x in ExplicitEmpty(g)
    ensures ValidTree(g, t) && Root(g, t) == x && Yield(t) == []
  {
    var r :| 0 <= r < |g.rules| && g.rules[r].rhs == [] && g.rules[r].lhs == x;
    Branch(r, [])
  }

  /** A rule all of whose symbols are in the set has its left-hand side in it. */
  predicate EmptyClosed(g: Grammar, lambda: set<nat>) {
    forall r :: 0 <= r < |g.rules| && (forall i :: 0 <= i < |g.rules[r].rhs| ==> g.rules[r].rhs[i] in lambda)
                ==> g.rules[r].lhs in lambda
  }

  /** The least such set: what the lambda flags are meant to be. */
  ghost predicate IsEmpty(g: Grammar, lambda: set<nat>) {
    EmptyClosed(g, lambda) && forall s :: EmptyClosed(g, s) ==> lambda <= s
  }

  /** No rule derives the empty string in two steps without its left-hand side
      doing so in one: something the author of a grammar can read off its rules. */
  predicate EmptyRulesClosed(g: Grammar) { EmptyClosed(g, ExplicitEmpty(g)) }

  lemma {:induction false} EmptyForestNullable(g: Grammar, ts: seq<Tree>)
    requires Yields(ts) == []
    ensures forall i :: 0 <= i < |ts| ==> Yield(ts[i]) == []
  {
    if ts != [] {
      EmptyForestNullable(g, ts[1..]);
      forall i | 0 <= i < |ts| ensures Yield(ts[i]) == [] {
        if i > 0 { assert ts[i] == ts[1..][i - 1]; }
      }
    }
  }

  lemma {:induction false} NullableWithin(g: Grammar, lambda: set<nat>, t: Tree)
    requires EmptyClosed(g, lambda) && ValidTree(g, t) && Yield(t) == []
    ensures Root(g, t) in lambda
    decreases t
  {
    EmptyForestNullable(g, t.children);
    forall i | 0 <= i < |t.children| ensures g.rules[t.rule].rhs[i] in lambda {
      NullableWithin(g, lambda, t.children[i]);
      assert Roots(g, t.children)[i] == Root(g, t.children[i]);
    }
  }

  lemma {:induction false} EmptyForest(g: Grammar, xs: seq<nat>) returns (ts: seq<Tree>)
    requires forall i :: 0 <= i < |xs| ==> Nullable(g, xs[i])
    ensures ValidForest(g, ts) && Roots(g, ts) == xs && Yields(ts) == []
  {
    if xs == [] {
      ts := [];
    } else {
      var rest := EmptyForest(g, xs[1..]);
      var t :| ValidTree(g, t) && Root(g, t) == xs[0] && Yield(t) == [];
      ts := [t] + rest;
      assert ts[1..] == rest;
      assert forall i :: 1 <= i < |ts| ==> Root(g, ts[i]) == Roots(g, rest)[i - 1];
    }
  }

  /** A rule whose symbols can all be empty can be empty. */
  lemma NullableRule(g: Grammar, r: nat)
    requires r < |g.rules| && forall i :: 0 <= i < |g.rules[r].rhs| ==> Nullable(g, g.rules[r].rhs[i])
    ensures Nullable(g, g.rules[r].lhs)
  {
    var ts := EmptyForest(g, g.rules[r].rhs);
    var t := Branch(r, ts);
    assert ValidTree(g, t) && Root(g, t) == g.rules[r].lhs && Yield(t) == [];
  }

  /** The nonterminals that derive the empty string. */
  ghost function Nulls(g: Grammar): set<nat> {
    set x | 0 <= x < g.NSymbol() && Nullable(g, x)
  }

  /** They are the least set closed under the rules. */
  lemma NullsLeast(g: Grammar)
    requires g.WellFormed()
    ensures IsEmpty(g, Nulls(g)) && forall x: nat :: x in Nulls(g) <==> Nullable(g, x)
  {
    forall x: nat | Nullable(g, x) ensures x < g.NSymbol() {
      var t :| ValidTree(g, t) && Root(g, t) == x && Yield(t) == [];
      assert t.Branch? && g.RuleOk(g.rules[t.rule]);
    }
    forall r | 0 <= r < |g.rules| && (forall i :: 0 <= i < |g.rules[r].rhs| ==> g.rules[r].rhs[i] in Nulls(g))
      ensures g.rules[r].lhs in Nulls(g)
    {
      NullableRule(g, r);
    }
    forall s, x | EmptyClosed(g, s) && x in Nulls(g) ensures x in s {
      var t :| ValidTree(g, t) && Root(g, t) == x && Yield(t) == [];
      NullableWithin(g, s, t);
    }
  }

  /** The comment above `FindFirstSets` promises the lambda flag for every
      nonterminal that generates the empty string. The flags are right for all
      nonterminals exactly when the explicit empty rules are closed. */
  lemma {:induction false} LambdaExactIff(g: Grammar)
    requires g.WellFormed()
    ensures (forall x :: x in ExplicitEmpty(g) <==> Nullable(g, x)) <==> EmptyRulesClosed(g)
  {
    ExplicitIsNullable(g);
    if EmptyRulesClosed(g) {
      forall x | Nullable(g, x) ensures x in ExplicitEmpty(g) {
        var t :| ValidTree(g, t) && Root(g, t) == x && Yield(t) == [];
        NullableWithin(g, ExplicitEmpty(g), t);
      }
    }
    if forall x :: x in ExplicitEmpty(g) <==> Nullable(g, x) {
      forall r | 0 <= r < |g.rules| && (forall i :: 0 <= i < |g.rules[r].rhs| ==> g.rules[r].rhs[i] in ExplicitEmpty(g))
        ensures g.rules[r].lhs in ExplicitEmpty(g)
      {
        NullableRule(g, r);
      }
    }
  }

  /** A string of leaves. */
  function Leaves(xs: seq<nat>): seq<Tree> {
    seq(|xs|, i requires 0 <= i < |xs| => Leaf(xs[i]))
  }

  /** A scanned token really begins a sentential form derived from the string,
      as long as the sets it was taken from have that property. */
  lemma {:induction false} ScanBegins(g: Grammar, lambda: set<nat>, first: seq<set<nat>>, xs: seq<nat>,
                                      token: nat)
    returns (ts: seq<Tree>)
    requires forall x :: x in lambda ==> Nullable(g, x)
    requires forall i :: 0 <= i < |xs| ==> 0 < xs[i] < g.NSymbol()
    requires forall x :: 0 <= x < |first| ==> forall t :: t in first[x] ==> BeginsWith(g, x, t)
    requires token in FirstOfSeq(g, lambda, first, xs)
    ensures ValidForest(g, ts) && Roots(g, ts) == xs && |Yields(ts)| > 0 && Yields(ts)[0] == token
  {
    var x := xs[0];
    if g.IsTerminal(x) {
      ts := Leaves(xs);
    } else if token in FirstAt(first, x) {
      var t :| ValidTree(g, t) && Root(g, t) == x && |Yield(t)| > 0 && Yield(t)[0] == token;
      ts := [t] + Leaves(xs[1..]);
    } else {
      var rest := ScanBegins(g, lambda, first, xs[1..], token);
      var t :| ValidTree(g, t) && Root(g, t) == x && Yield(t) == [];
      ts := [t] + rest;
      assert ts[1..] == rest;
      assert forall i :: 1 <= i < |ts| ==> Root(g, ts[i]) == Roots(g, rest)[i - 1];
    }
  }

  /** The tokens a nonterminal really begins with. */
  ghost function TrueFirst(g: Grammar): seq<set<nat>> {
    seq(g.NSymbol(), x requires 0 <= x < g.NSymbol() =>
      set t: nat | t < g.nterminal <= x && BeginsWith(g, x, t))
  }

  lemma {:induction false} ScanWithin(g: Grammar, lambda: set<nat>, first: seq<set<nat>>, xs: seq<nat>, token: nat)
    requires FamilyOk(g, first) && token in FirstOfSeq(g, lambda, first, xs)
    ensures token < g.nterminal
  {
    if !g.IsTerminal(xs[0]) && token !in FirstAt(first, xs[0]) {
      ScanWithin(g, lambda, first, xs[1..], token);
    }
  }

  /** Whatever scans see as empty, as long as it is. */
  lemma TrueFirstClosed(g: Grammar, lambda: set<nat>)
    requires g.WellFormed() && forall x :: x in lambda ==> Nullable(g, x)
    ensures FamilyOk(g, TrueFirst(g)) && FirstClosed(g, lambda, TrueFirst(g))
  {
    var fam := TrueFirst(g);
    forall r, t | 0 <= r < |g.rules| && t in FirstOfSeq(g, lambda, fam, g.rules[r].rhs)
      ensures t in FirstAt(fam, g.rules[r].lhs)
    {
      assert g.RuleOk(g.rules[r]);
      ScanWithin(g, lambda, fam, g.rules[r].rhs, t);
      var ts := ScanBegins(g, lambda, fam, g.rules[r].rhs, t);
      var b := Branch(r, ts);
      assert ValidTree(g, b) && Root(g, b) == g.rules[r].lhs && Yield(b)[0] == t;
    }
  }

  lemma ExplicitIsNullable(g: Grammar)
    ensures forall x :: x in ExplicitEmpty(g) ==> Nullable(g, x)
  {
    forall x | x in ExplicitEmpty(g) ensures Nullable(g, x) {
      var t := EmptyTree(g, x);
    }
  }

  /** Every computed first-set member begins some sentential form derived from
      its nonterminal, whatever the grammar. */
  lemma FirstSound(g: Grammar, first: seq<set<nat>>, x: nat, token: nat)
    requires g.WellFormed() && IsFirst(g, ExplicitEmpty(g), first)
    requires x < |first| && token in first[x]
    ensures BeginsWith(g, x, token)
  {
    ExplicitIsNullable(g);
    TrueFirstClosed(g, ExplicitEmpty(g));
    assert Below(first, TrueFirst(g));
  }

  // ---------------------------------------------------------------------------
  // Completeness, where no scan stops too early

  /** No nonterminal at which a scan of `xs` stops could have been empty. */
  ghost predicate ScanOk(g: Grammar, lambda: set<nat>, xs: seq<nat>) {
    forall i :: 0 <= i < |xs| && Transparent(g, lambda, xs[..i]) && Nullable(g, xs[i]) ==> xs[i] in lambda
  }

  /** Both kinds of scan (from the front of a rule, and from behind a
      nonterminal in a rule) only stop where they must. */
  ghost predicate ScansComplete(g: Grammar) {
    && (forall r :: 0 <= r < |g.rules| ==> ScanOk(g, ExplicitEmpty(g), g.rules[r].rhs))
    && (forall r, d :: 0 <= r < |g.rules| && 0 <= d < |g.rules[r].rhs| && !g.IsTerminal(g.rules[r].rhs[d])
                       ==> ScanOk(g, ExplicitEmpty(g), g.rules[r].rhs[d + 1..]))
  }

  lemma ScansCompleteWhenExplicit(g: Grammar)
    requires g.WellFormed() && EmptyRulesClosed(g)
    ensures ScansComplete(g)
  {
    LambdaExactIff(g);
  }

  lemma ScanOkTail(g: Grammar, lambda: set<nat>, xs: seq<nat>)
    requires ScanOk(g, lambda, xs) && xs != [] && !g.IsTerminal(xs[0]) && xs[0] in lambda
    ensures ScanOk(g, lambda, xs[1..])
  {
    var tail := xs[1..];
    forall i | 0 <= i < |tail| && Transparent(g, lambda, tail[..i]) && Nullable(g, tail[i])
      ensures tail[i] in lambda
    {
      var prefix := xs[..i + 1];
      forall j | 0 <= j < |prefix| ensures !g.IsTerminal(prefix[j]) && prefix[j] in lambda {
        if j > 0 { assert prefix[j] == tail[..i][j - 1]; }
      }
      assert xs[i + 1] == tail[i];
    }
  }

  /** The first token of a forest's yield is found by scanning its roots, and an
      empty yield lets the scan through. */
  lemma {:induction false} ScanFindsFirst(g: Grammar, lambda: set<nat>, first: seq<set<nat>>, ts: seq<Tree>)
    requires g.WellFormed() && FamilyOk(g, first) && FirstClosed(g, lambda, first)
    requires forall r :: 0 <= r < |g.rules| ==> ScanOk(g, lambda, g.rules[r].rhs)
    requires ValidForest(g, ts) && ScanOk(g, lambda, Roots(g, ts))
    ensures Yields(ts) == [] ==> Transparent(g, lambda, Roots(g, ts))
    ensures |Yields(ts)| > 0 && Yields(ts)[0] < g.nterminal
            ==> Yields(ts)[0] in FirstOfSeq(g, lambda, first, Roots(g, ts))
    decreases Sizes(ts), 1
  {
    if ts != [] {
      var xs := Roots(g, ts);
      assert xs[1..] == Roots(g, ts[1..]);
      if Yield(ts[0]) == [] {
        assert Nullable(g, xs[0]);
        assert Transparent(g, lambda, xs[..0]);
        assert ts[0].Branch? && g.RuleOk(g.rules[ts[0].rule]);
        ScanOkTail(g, lambda, xs);
        ScanFindsFirst(g, lambda, first, ts[1..]);
        assert Yields(ts) == Yields(ts[1..]);
        if Yields(ts) == [] {
          forall i | 0 <= i < |xs| ensures !g.IsTerminal(xs[i]) && xs[i] in lambda {
            if i > 0 { assert xs[i] == xs[1..][i - 1]; }
          }
        }
      } else if Yield(ts[0])[0] < g.nterminal && ts[0].Branch? {
        FirstFindsYield(g, lambda, first, ts[0]);
        assert g.RuleOk(g.rules[ts[0].rule]);
      }
    }
  }

  lemma {:induction false} FirstFindsYield(g: Grammar, lambda: set<nat>, first: seq<set<nat>>, t: Tree)
    requires g.WellFormed() && FamilyOk(g, first) && FirstClosed(g, lambda, first)
    requires forall r :: 0 <= r < |g.rules| ==> ScanOk(g, lambda, g.rules[r].rhs)
    requires ValidTree(g, t) && t.Branch? && |Yield(t)| > 0 && Yield(t)[0] < g.nterminal
    ensures Yield(t)[0] in FirstAt(first, Root(g, t))
    decreases Size(t), 0
  {
    ScanFindsFirst(g, lambda, first, t.children);
  }

  /** With the right lambda flags, the least family is what the nonterminals really begin
      with. */
  lemma TrueFirstIsFirst(g: Grammar)
    requires g.WellFormed()
    ensures IsFirst(g, Nulls(g), TrueFirst(g))
  {
    NullsLeast(g);
    TrueFirstClosed(g, Nulls(g));
    forall fam | FamilyOk(g, fam) && FirstClosed(g, Nulls(g), fam) ensures Below(TrueFirst(g), fam) {
      forall x, token | 0 <= x < g.NSymbol() && token in TrueFirst(g)[x] ensures token in fam[x] {
        var t :| ValidTree(g, t) && Root(g, t) == x && |Yield(t)| > 0 && Yield(t)[0] == token;
        FirstFindsYield(g, Nulls(g), fam, t);
      }
    }
  }

  /** The first sets are exactly right when no scan stops too early. */
  lemma FirstExact(g: Grammar, first: seq<set<nat>>, x: nat, token: nat)
    requires g.WellFormed() && IsFirst(g, ExplicitEmpty(g), first) && ScansComplete(g)
    requires g.nterminal <= x < g.NSymbol() && token < g.nterminal
    ensures token in first[x] <==> BeginsWith(g, x, token)
  {
    if token in first[x] {
      FirstSound(g, first, x, token);
    }
    if BeginsWith(g, x, token) {
      var t :| ValidTree(g, t) && Root(g, t) == x && |Yield(t)| > 0 && Yield(t)[0] == token;
      FirstFindsYield(g, ExplicitEmpty(g), first, t);
    }
  }
}
