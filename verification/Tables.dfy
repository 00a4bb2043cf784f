/** `ResortStates` and the table part of `ReportTable`: the final numbering of the
    states and the arrays the generated parser reads. */
module TableBuilder {
  import opened Options
  import opened Grammars
  import opened Sorting
  import opened ActionLists
  import opened Actions
  import opened ActTab
  import opened Driver

  // ---------------------------------------------------------------------------
  // The sets of actions that go into the table

  /** `compute_action`: a shift is coded by the number of its state. */
  function ComputeAction(g: Grammar, num: seq<nat>, a: Action): int {
    match a.typ
    case SHIFT => if a.arg < |num| then num[a.arg] else 0
    case REDUCE => a.arg + |num|
    case ERROR => |num| + |g.rules|
    case ACCEPT => |num| + |g.rules| + 1
    case _ => -1
  }

  /** Actions on tokens, or on nonterminals; the default action is neither. */
  predicate OfKind(g: Grammar, tokens: bool, a: Action) {
    Live(a) && if tokens then a.sp < g.nterminal else g.nterminal <= a.sp < g.NSymbol()
  }

  /** The transaction set of a state's actions of one kind. */
  function SetFor(g: Grammar, num: seq<nat>, tokens: bool, ap: seq<Action>): seq<Slot> {
    if ap == [] then []
    else (if OfKind(g, tokens, ap[0]) then [Slot(ap[0].sp, ComputeAction(g, num, ap[0]))] else [])
         + SetFor(g, num, tokens, ap[1..])
  }

  lemma {:induction false} SetForMembers(g: Grammar, num: seq<nat>, tokens: bool, ap: seq<Action>, e: Slot)
    ensures e in SetFor(g, num, tokens, ap) <==>
            exists x :: x in ap && OfKind(g, tokens, x) && e == Slot(x.sp, ComputeAction(g, num, x))
  {
    if ap != [] {
      SetForMembers(g, num, tokens, ap[1..], e);
      assert forall x :: x in ap <==> x == ap[0] || x in ap[1..];
    }
  }

  lemma {:induction false} SetForOk(g: Grammar, num: seq<nat>, tokens: bool, ap: seq<Action>)
    requires LiveOnce(ap)
    ensures SetOk(SetFor(g, num, tokens, ap))
  {
    if ap != [] {
      SetForOk(g, num, tokens, ap[1..]);
      var es, tail := SetFor(g, num, tokens, ap), SetFor(g, num, tokens, ap[1..]);
      if OfKind(g, tokens, ap[0]) {
        forall j | 0 <= j < |tail| ensures tail[j].lookahead != ap[0].sp {
          SetForMembers(g, num, tokens, ap[1..], tail[j]);
          var x :| x in ap[1..] && OfKind(g, tokens, x) && tail[j] == Slot(x.sp, ComputeAction(g, num, x));
          var k :| 0 <= k < |ap[1..]| && ap[1..][k] == x;
          assert ap[k + 1] == x;
        }
        assert es == [Slot(ap[0].sp, ComputeAction(g, num, ap[0]))] + tail;
      } else {
        assert es == tail;
      }
    }
  }

  /** Looking a symbol up in the set finds the code of its live action. */
  lemma SetForAction(g: Grammar, num: seq<nat>, tokens: bool, ap: seq<Action>, x: Action)
    requires LiveOnce(ap) && x in ap && OfKind(g, tokens, x)
    ensures ActionOf(SetFor(g, num, tokens, ap), x.sp) == Some(ComputeAction(g, num, x))
  {
    var es := SetFor(g, num, tokens, ap);
    SetForOk(g, num, tokens, ap);
    SetForMembers(g, num, tokens, ap, Slot(x.sp, ComputeAction(g, num, x)));
    ActionOfExact(es, x.sp);
  }

  lemma SetForNone(g: Grammar, num: seq<nat>, tokens: bool, ap: seq<Action>, y: nat)
    requires LiveOnce(ap) && forall x :: x in ap && OfKind(g, tokens, x) ==> x.sp != y
    ensures ActionOf(SetFor(g, num, tokens, ap), y) == None
  {
    var es := SetFor(g, num, tokens, ap);
    SetForOk(g, num, tokens, ap);
    ActionOfExact(es, y);
    if ActionOf(es, y).Some? {
      var i :| 0 <= i < |es| && es[i].lookahead == y;
      SetForMembers(g, num, tokens, ap, es[i]);
    }
  }

  lemma {:induction false} SetForLength(g: Grammar, num: seq<nat>, num': seq<nat>, tokens: bool, ap: seq<Action>)
    ensures |SetFor(g, num, tokens, ap)| == |SetFor(g, num', tokens, ap)|
  {
    if ap != [] { SetForLength(g, num, num', tokens, ap[1..]); }
  }

  // ---------------------------------------------------------------------------
  // ResortStates

  /** States numbered in the order they were found. */
  function Identity(n: nat): seq<nat> { seq(n, i => i) }

  /** `nTknAct`, `nNtAct` and `iDflt` of a state. */
  datatype Counts = Counts(nTkn: nat, nNt: nat, iDflt: int)

  /** The default action of a list, or the error action. */
  function DefaultOf(g: Grammar, nstate: nat, ap: seq<Action>): int {
    if ap == [] then nstate + |g.rules|
    else
      var x := ap[|ap| - 1];
      if Live(x) && x.sp >= g.NSymbol() then ComputeAction(g, Identity(nstate), x)
      else DefaultOf(g, nstate, ap[..|ap| - 1])
  }

  method CountActions(g: Grammar, ghost num: seq<nat>, nstate: nat, ap: seq<Action>) returns (c: Counts)
    requires g.WellFormed()
    ensures c.nTkn == |SetFor(g, num, true, ap)| && c.nNt == |SetFor(g, num, false, ap)|
    ensures c.iDflt == DefaultOf(g, nstate, ap)
  {
    c := Counts(0, 0, nstate + |g.rules|);
    assert ap[0..] == ap;
    for i := 0 to |ap|
      invariant c.nTkn + |SetFor(g, num, true, ap[i..])| == |SetFor(g, num, true, ap)|
      invariant c.nNt + |SetFor(g, num, false, ap[i..])| == |SetFor(g, num, false, ap)|
      invariant c.iDflt == DefaultOf(g, nstate, ap[..i])
    {
      assert ap[i..][1..] == ap[i + 1..];
      ghost var upto := ap[..i + 1];
      assert upto[|upto| - 1] == ap[i] && upto[..|upto| - 1] == ap[..i];
      if ComputeAction(g, Identity(nstate), ap[i]) >= 0 {
        if ap[i].sp < g.nterminal {
          c := c.(nTkn := c.nTkn + 1);
        } else if ap[i].sp < g.NSymbol() {
          c := c.(nNt := c.nNt + 1);
        } else {
          c := c.(iDflt := ComputeAction(g, Identity(nstate), ap[i]));
        }
      }
    }
    assert ap[..|ap|] == ap;
  }

  /** `stateResortCompare`. */
  function ResortCmp(a: (nat, Counts), b: (nat, Counts)): int {
    if b.1.nNt != a.1.nNt then b.1.nNt - a.1.nNt else b.1.nTkn - a.1.nTkn
  }

  /** A renumbering of the states that leaves the first one in place. */
  predicate IsRenumbering(order: seq<nat>, num: seq<nat>) {
    && |order| == |num| && |num| > 0 && order[0] == 0 && num[0] == 0
    && (forall i :: 0 <= i < |order| ==> order[i] < |num| && num[order[i]] == i)
    && (forall s :: 0 <= s < |num| ==> num[s] < |order| && order[num[s]] == s)
  }

  lemma ResortCmpPreorder()
    ensures TotalPreorder(ResortCmp)
  {
  }

  /** States with more actions come first, nonterminal actions counting most; the
      first state stays where it is. */
  predicate Resorted(counts: seq<Counts>, order: seq<nat>) {
    forall i, j :: 0 < i < j < |order| && order[i] < |counts| && order[j] < |counts| ==>
                     MoreActions(counts[order[i]], counts[order[j]])
  }

  predicate MoreActions(a: Counts, b: Counts) {
    a.nNt > b.nNt || (a.nNt == b.nNt && a.nTkn >= b.nTkn)
  }

  lemma SortedResorts(counts: seq<Counts>, rest: seq<(nat, Counts)>, sorted: seq<(nat, Counts)>, order: seq<nat>)
    requires forall x :: x in rest ==> x.0 < |counts| && x.1 == counts[x.0]
    requires Sorted(ResortCmp, sorted) && (forall x :: x in sorted <==> x in rest)
    requires |order| == |sorted| + 1 && forall i :: 0 < i < |order| ==> order[i] == sorted[i - 1].0
    ensures Resorted(counts, order)
  {
    forall i | 0 < i < |order| ensures order[i] < |counts| && sorted[i - 1] == (order[i], counts[order[i]]) {
      assert sorted[i - 1] in rest;
    }
    forall i, j | 0 < i < j < |order| ensures MoreActions(counts[order[i]], counts[order[j]]) {
      var p, q := i - 1, j - 1;
      assert ResortCmp(sorted[p], sorted[q]) <= 0;
    }
  }

  /** Sorting by `stateResortCompare`; whatever it does with ties, the outcome is a
      renumbering. */
  method ResortStates(counts: seq<Counts>) returns (order: seq<nat>, num: seq<nat>)
    requires |counts| > 0
    ensures |order| == |counts| && IsRenumbering(order, num) && Resorted(counts, order)
  {
    hide Resorted, TotalPreorder;
    var rest: seq<(nat, Counts)> := seq(|counts| - 1, i requires 0 <= i < |counts| - 1 => (i + 1, counts[i + 1]));
    var sorted := StableSort(ResortCmp, rest);
    StableSortElements(ResortCmp, rest);
    StableSortSame(ResortCmp, rest);
    assert NoDup(rest);
    order := [0] + seq(|sorted|, i requires 0 <= i < |sorted| => sorted[i].0);
    OrderIsPermutation(counts, rest, sorted, order);
    ResortCmpPreorder();
    StableSortSorted(ResortCmp, rest);
    SortedResorts(counts, rest, sorted, order);
    num := NumberStates(order);
  }

  /** The new number of every state. */
  method NumberStates(order: seq<nat>) returns (num: seq<nat>)
    requires order != [] && order[0] == 0 && NoDup(order)
    requires (forall i :: 0 <= i < |order| ==> order[i] < |order|) && forall s :: 0 <= s < |order| ==> s in order
    ensures IsRenumbering(order, num)
  {
    num := Identity(|order|);
    for i := 0 to |order|
      invariant |num| == |order|
      invariant forall k :: 0 <= k < i ==> num[order[k]] == k
    {
      num := num[order[i] := i];
    }
    forall s | 0 <= s < |num| ensures num[s] < |order| && order[num[s]] == s {
      assert s in order;
      var k :| 0 <= k < |order| && order[k] == s;
    }
  }

  lemma OrderIsPermutation(counts: seq<Counts>, rest: seq<(nat, Counts)>, sorted: seq<(nat, Counts)>, order: seq<nat>)
    requires |rest| == |counts| - 1 && forall i :: 0 <= i < |rest| ==> rest[i] == (i + 1, counts[i + 1])
    requires |sorted| == |rest| && NoDup(sorted) && forall x :: x in sorted <==> x in rest
    requires |order| == |counts| && order[0] == 0 && forall i :: 0 < i < |order| ==> order[i] == sorted[i - 1].0
    ensures forall i :: 0 <= i < |order| ==> order[i] < |order|
    ensures NoDup(order)
    ensures forall s :: 0 <= s < |order| ==> s in order
  {
    forall i | 0 < i < |order| ensures 0 < order[i] < |order| && sorted[i - 1] == (order[i], counts[order[i]]) {
      assert sorted[i - 1] in rest;
    }
    forall i, j | 0 <= i < j < |order| ensures order[i] != order[j] {
      if i > 0 { assert sorted[i - 1] != sorted[j - 1]; }
    }
    forall s | 0 <= s < |order| ensures s in order {
      if s > 0 {
        assert rest[s - 1] in sorted;
        var k :| 0 <= k < |sorted| && sorted[k] == rest[s - 1];
        assert order[k + 1] == s;
      } else {
        assert order[0] == s;
      }
    }
  }

  // ---------------------------------------------------------------------------
  // ReportTable

  /** One transaction set to be placed (`struct axset`). */
  datatype AxSet = AxSet(state: nat, tokens: bool, nAction: nat)

  /** `axset_compare`: the largest sets first. */
  function AxCmp(a: AxSet, b: AxSet): int { b.nAction - a.nAction }

  lemma AxCmpPreorder()
    ensures TotalPreorder(AxCmp)
  {
  }

  /** The offset found for a set, if it has any members. */
  datatype Offsets = Offsets(tkn: seq<Option<int>>, nt: seq<Option<int>>)

  function OffsetAt(o: Offsets, tokens: bool, s: nat): Option<int>
    requires s < |o.tkn| == |o.nt|
  {
    if tokens then o.tkn[s] else o.nt[s]
  }

  /** The set of a state and kind is packed at its offset, or empty without one. */
  ghost predicate Placed(g: Grammar, num: seq<nat>, lists: seq<seq<Action>>, packed: seq<(int, seq<Slot>)>, o: Offsets,
                         s: nat, tokens: bool)
    requires s < |lists| == |o.tkn| == |o.nt|
  {
    match OffsetAt(o, tokens, s)
    case None => SetFor(g, num, tokens, lists[s]) == []
    case Some(ofst) => (ofst, SetFor(g, num, tokens, lists[s])) in packed
  }

  method Stage(tab: Acttab, g: Grammar, num: seq<nat>, tokens: bool, ap: seq<Action>)
    requires tab.Valid() && tab.aLookahead == [] && LiveOnce(ap)
    modifies tab`aLookahead, tab`mnLookahead, tab`mnAction, tab`mxLookahead
    ensures tab.Valid() && tab.aLookahead == SetFor(g, num, tokens, ap)
  {
    ghost var all := SetFor(g, num, tokens, ap);
    SetForOk(g, num, tokens, ap);
    assert ap[0..] == ap && [] + all == all;
    for i := 0 to |ap|
      invariant tab.Valid()
      invariant tab.aLookahead + SetFor(g, num, tokens, ap[i..]) == all
    {
      StageStep(g, num, tokens, ap, i, tab.aLookahead, all);
      if OfKind(g, tokens, ap[i]) {
        tab.Add(ap[i].sp, ComputeAction(g, num, ap[i]));
      }
    }
    assert ap[|ap|..] == [];
  }

  lemma StageStep(g: Grammar, num: seq<nat>, tokens: bool, ap: seq<Action>, i: nat, staged: seq<Slot>, all: seq<Slot>)
    requires i < |ap| && staged + SetFor(g, num, tokens, ap[i..]) == all && SetOk(all)
    ensures if OfKind(g, tokens, ap[i]) then
              && (forall k :: 0 <= k < |staged| ==> staged[k].lookahead != ap[i].sp)
              && staged + [Slot(ap[i].sp, ComputeAction(g, num, ap[i]))] + SetFor(g, num, tokens, ap[i + 1..]) == all
            else staged + SetFor(g, num, tokens, ap[i + 1..]) == all
  {
    assert ap[i..][1..] == ap[i + 1..];
    if OfKind(g, tokens, ap[i]) {
      var e := Slot(ap[i].sp, ComputeAction(g, num, ap[i]));
      assert SetFor(g, num, tokens, ap[i..]) == [e] + SetFor(g, num, tokens, ap[i + 1..]);
      assert all[|staged|] == e;
      forall k | 0 <= k < |staged| ensures staged[k].lookahead != e.lookahead {
        assert all[k] == staged[k];
      }
    }
  }

  /** Offsets of all sets, with their extreme values. */
  datatype Placement = Placement(offsets: Offsets, mnTkn: int, mnNt: int)

  predicate OffsetsOk(p: Placement, n: nat) {
    && |p.offsets.tkn| == |p.offsets.nt| == n
    && (forall s :: 0 <= s < n && p.offsets.tkn[s].Some? ==> p.mnTkn <= p.offsets.tkn[s].value)
    && (forall s :: 0 <= s < n && p.offsets.nt[s].Some? ==> p.mnNt <= p.offsets.nt[s].value)
  }

  function Recorded(p: Placement, x: AxSet, ofst: int): Placement
    requires x.state < |p.offsets.tkn| == |p.offsets.nt|
  {
    if x.tokens then
      Placement(p.offsets.(tkn := p.offsets.tkn[x.state := Some(ofst)]),
                if ofst < p.mnTkn then ofst else p.mnTkn, p.mnNt)
    else
      Placement(p.offsets.(nt := p.offsets.nt[x.state := Some(ofst)]), p.mnTkn, if ofst < p.mnNt then ofst else p.mnNt)
  }

  predicate LargestFirst(ax: seq<AxSet>) {
    forall i, j :: 0 <= i < j < |ax| ==> ax[i].nAction >= ax[j].nAction
  }

  /** All sets to be placed, the largest first. */
  ghost predicate AxOk(g: Grammar, num: seq<nat>, lists: seq<seq<Action>>, ax: seq<AxSet>) {
    && NoDup(ax) && LargestFirst(ax)
    && (forall x :: x in ax ==> x.state < |lists| && x.nAction == |SetFor(g, num, x.tokens, lists[x.state])|)
    && (forall s, t :: 0 <= s < |lists| ==> AxSet(s, t, |SetFor(g, num, t, lists[s])|) in ax)
  }

  method ListSets(g: Grammar, num: seq<nat>, lists: seq<seq<Action>>, counts: seq<Counts>) returns (ax: seq<AxSet>)
    requires |counts| == |lists|
    requires forall s :: 0 <= s < |lists| ==>
                           counts[s].nTkn == |SetFor(g, num, true, lists[s])| &&
                             counts[s].nNt == |SetFor(g, num, false, lists[s])|
    ensures AxOk(g, num, lists, ax)
  {
    var all: seq<AxSet> := [];
    for s := 0 to |lists|
      invariant NoDup(all)
      invariant forall x :: x in all <==> x.state < s && x.nAction == |SetFor(g, num, x.tokens, lists[x.state])|
    {
      all := all + [AxSet(s, true, counts[s].nTkn), AxSet(s, false, counts[s].nNt)];
    }
    ax := StableSort(AxCmp, all);
    AxCmpPreorder();
    StableSortSame(AxCmp, all);
    StableSortSorted(AxCmp, all);
    forall i, j | 0 <= i < j < |ax| ensures ax[i].nAction >= ax[j].nAction {
      assert AxCmp(ax[i], ax[j]) <= 0;
    }
  }

  /** Placement loop state: the first `i` sets have been placed. */
  ghost predicate PlacedUpto(g: Grammar, num: seq<nat>, lists: seq<seq<Action>>, ax: seq<AxSet>, i: nat,
                             packed: seq<(int, seq<Slot>)>, p: Placement)
    requires i <= |ax| && AxOk(g, num, lists, ax)
  {
    && OffsetsOk(p, |lists|)
    && (forall k :: 0 <= k < i ==>
          && OffsetAt(p.offsets, ax[k].tokens, ax[k].state).Some?
          && (OffsetAt(p.offsets, ax[k].tokens, ax[k].state).value,
            SetFor(g, num, ax[k].tokens, lists[ax[k].state])) in packed)
    && (forall k :: i <= k < |ax| ==> OffsetAt(p.offsets, ax[k].tokens, ax[k].state).None?)
  }

  lemma RecordedOk(p: Placement, x: AxSet, ofst: int, n: nat)
    requires OffsetsOk(p, n) && x.state < n
    ensures OffsetsOk(Recorded(p, x, ofst), n)
  {
  }

  lemma PlaceNext(g: Grammar, num: seq<nat>, lists: seq<seq<Action>>, ax: seq<AxSet>, i: nat,
                  packed: seq<(int, seq<Slot>)>, p: Placement, ofst: int)
    requires i < |ax| && AxOk(g, num, lists, ax) && PlacedUpto(g, num, lists, ax, i, packed, p)
    ensures ax[i] in ax && ax[i].state < |lists|
    ensures PlacedUpto(g, num, lists, ax, i + 1, packed + [(ofst, SetFor(g, num, ax[i].tokens, lists[ax[i].state]))],
            Recorded(p, ax[i], ofst))
    ensures OffsetsOk(Recorded(p, ax[i], ofst), |lists|)
  {
    hide SetFor, LargestFirst;
    assert ax[i] in ax;
    var q := Recorded(p, ax[i], ofst);
    RecordedOk(p, ax[i], ofst, |lists|);
    hide OffsetsOk;
    forall k | 0 <= k < |ax| && k != i ensures ax[k].state < |lists|
      && OffsetAt(q.offsets, ax[k].tokens, ax[k].state) == OffsetAt(p.offsets, ax[k].tokens, ax[k].state)
    {
      assert ax[k] in ax && ax[k] != ax[i];
    }
  }

  lemma NothingPlaced(g: Grammar, num: seq<nat>, lists: seq<seq<Action>>, ax: seq<AxSet>, packed: seq<(int, seq<Slot>)>,
                      p: Placement)
    requires AxOk(g, num, lists, ax) && |p.offsets.tkn| == |p.offsets.nt| == |lists|
    requires forall s :: 0 <= s < |lists| ==> p.offsets.tkn[s].None? && p.offsets.nt[s].None?
    ensures PlacedUpto(g, num, lists, ax, 0, packed, p)
  {
    hide SetFor, LargestFirst;
    forall k | 0 <= k < |ax| ensures ax[k].state < |lists| { assert ax[k] in ax; }
  }

  /** Once the sets left over are empty, everything is placed. */
  lemma AllPlaced(g: Grammar, num: seq<nat>, lists: seq<seq<Action>>, ax: seq<AxSet>, i: nat,
                  packed: seq<(int, seq<Slot>)>, p: Placement, s: nat, tokens: bool)
    requires i <= |ax| && AxOk(g, num, lists, ax) && PlacedUpto(g, num, lists, ax, i, packed, p)
    requires i < |ax| ==> ax[i].nAction == 0
    requires s < |lists|
    ensures Placed(g, num, lists, packed, p.offsets, s, tokens)
  {
    hide SetFor;
    var x := AxSet(s, tokens, |SetFor(g, num, tokens, lists[s])|);
    assert x in ax;
    var k :| 0 <= k < |ax| && ax[k] == x;
    hide AxOk;
    if i <= k { LeftoverEmpty(g, num, lists, ax, i, k); }
  }

  lemma LeftoverEmpty(g: Grammar, num: seq<nat>, lists: seq<seq<Action>>, ax: seq<AxSet>, i: nat, k: nat)
    requires AxOk(g, num, lists, ax) && i <= k < |ax| && ax[i].nAction == 0
    ensures ax[k].nAction == 0
  {
    hide SetFor, NoDup;
  }

  lemma AxAt(g: Grammar, num: seq<nat>, lists: seq<seq<Action>>, ax: seq<AxSet>, i: nat)
    requires AxOk(g, num, lists, ax) && i < |ax|
    ensures ax[i].state < |lists| && ax[i].nAction == |SetFor(g, num, ax[i].tokens, lists[ax[i].state])|
  {
    assert ax[i] in ax;
  }

  /** One set is staged and inserted. */
  method PlaceOne(tab: Acttab, g: Grammar, num: seq<nat>, tokens: bool, ap: seq<Action>) returns (ofst: int)
    requires tab.Valid() && tab.aLookahead == [] && LiveOnce(ap) && SetFor(g, num, tokens, ap) != []
    modifies tab, tab.aAction
    ensures tab.Valid() && tab.aLookahead == []
    ensures tab.packed == old(tab.packed) + [(ofst, SetFor(g, num, tokens, ap))]
    ensures tab.aAction == old(tab.aAction) || fresh(tab.aAction)
  {
    hide LiveOnce, SetFor, Staged, Holds, TailEmpty, SetOk;
    Stage(tab, g, num, tokens, ap);
    ofst := tab.Insert();
  }

  method PlaceSets(g: Grammar, num: seq<nat>, lists: seq<seq<Action>>, counts: seq<Counts>)
    returns (tab: Acttab, p: Placement)
    requires |counts| == |lists| && forall s :: 0 <= s < |lists| ==> LiveOnce(lists[s])
    requires forall s :: 0 <= s < |lists| ==>
                           counts[s].nTkn == |SetFor(g, num, true, lists[s])| &&
                             counts[s].nNt == |SetFor(g, num, false, lists[s])|
    ensures fresh(tab) && tab.Valid()
    ensures OffsetsOk(p, |lists|)
    ensures forall s, t :: 0 <= s < |lists| ==> Placed(g, num, lists, tab.packed, p.offsets, s, t)
  {
    hide LiveOnce, SetFor, AxOk, Staged, Holds, TailEmpty, SetOk, PlacedUpto, Placed, OffsetAt;
    var ax := ListSets(g, num, lists, counts);
    tab := new Acttab();
    p := Placement(Offsets(seq(|lists|, _ => None), seq(|lists|, _ => None)), 0, 0);
    NothingPlaced(g, num, lists, ax, tab.packed, p);
    var i := 0;
    while i < |ax| && ax[i].nAction > 0
      invariant 0 <= i <= |ax| && tab.Valid() && tab.aLookahead == [] && fresh(tab) && fresh(tab.aAction)
      invariant PlacedUpto(g, num, lists, ax, i, tab.packed, p) && OffsetsOk(p, |lists|)
    {
      ghost var packed := tab.packed;
      AxAt(g, num, lists, ax, i);
      var ofst := PlaceOne(tab, g, num, ax[i].tokens, lists[ax[i].state]);
      PlaceNext(g, num, lists, ax, i, packed, p, ofst);
      p := Recorded(p, ax[i], ofst);
      i := i + 1;
    }
    forall s, t | 0 <= s < |lists| ensures Placed(g, num, lists, tab.packed, p.offsets, s, t) {
      AllPlaced(g, num, lists, ax, i, tab.packed, p, s, t);
    }
  }

  // ---------------------------------------------------------------------------
  // Output

  function EmittedAction(g: Grammar, nstate: nat, e: Slot): int {
    if e.action < 0 then nstate + |g.rules| + 2 else e.action
  }

  function EmittedLookahead(g: Grammar, e: Slot): int {
    if e.lookahead < 0 then g.NSymbol() else e.lookahead
  }

  /** Offsets without the trailing states that have none. */
  method EmitOffsets(ofsts: seq<Option<int>>, useDflt: int) returns (out: seq<int>)
    ensures |out| <= |ofsts|
    ensures forall s :: 0 <= s < |out| ==> out[s] == if ofsts[s].Some? then ofsts[s].value else useDflt
    ensures forall s :: |out| <= s < |ofsts| ==> ofsts[s].None?
    ensures out != [] ==> ofsts[|out| - 1].Some?
  {
    var n := |ofsts|;
    while n > 0 && ofsts[n - 1].None?
      invariant 0 <= n <= |ofsts| && forall s :: n <= s < |ofsts| ==> ofsts[s].None?
    {
      n := n - 1;
    }
    out := seq(n, s requires 0 <= s < n => if ofsts[s].Some? then ofsts[s].value else useDflt);
  }

  /** How long the arrays of offsets are: up to the last state that has a set. */
  ghost predicate Trimmed(g: Grammar, num: seq<nat>, lists: seq<seq<Action>>, tokens: bool, ofst: seq<int>) {
    && |ofst| <= |lists| && (ofst != [] ==> SetFor(g, num, tokens, lists[|ofst| - 1]) != [])
    && forall s :: |ofst| <= s < |lists| ==> SetFor(g, num, tokens, lists[s]) == []
  }

  /** What the emitted arrays promise, for every state and symbol. */
  ghost predicate Decodes(g: Grammar, num: seq<nat>, lists: seq<seq<Action>>, t: Tables) {
    && t.nstate == |lists| && t.nrule == |g.rules| && t.nsymbol == g.NSymbol()
    && |t.dflt| == |lists|
    && (forall s :: 0 <= s < |lists| ==> t.dflt[s] == DefaultOf(g, |lists|, lists[s]))
    && (forall s, x :: 0 <= s < |lists| && 0 <= x < g.nterminal ==>
          FindShiftAction(t, s, x) ==
          var found := ActionOf(SetFor(g, num, true, lists[s]), x); if found.Some? then found else Some(t.dflt[s]))
    && (forall s, x :: 0 <= s < |lists| && 0 <= x < g.NSymbol() ==>
          FindReduceAction(t, s, x) == ActionOf(SetFor(g, num, false, lists[s]), x))
    && |t.ruleInfo| == |g.rules|
    && (forall r :: 0 <= r < |g.rules| ==> t.ruleInfo[r] == (g.rules[r].lhs, |g.rules[r].rhs| % 256))
  }

  ghost predicate Emitted(g: Grammar, nstate: nat, tab: seq<Slot>, n: nat, yyaction: seq<int>, yylookahead: seq<int>) {
    && n <= |tab| && |yyaction| == |yylookahead| == n
    && forall k :: 0 <= k < n ==>
      yyaction[k] == EmittedAction(g, nstate, tab[k]) && yylookahead[k] == EmittedLookahead(g, tab[k])
  }

  lemma {:induction false} SetForCodes(g: Grammar, num: seq<nat>, tokens: bool, ap: seq<Action>, x: int)
    requires ActionOf(SetFor(g, num, tokens, ap), x).Some?
    ensures ActionOf(SetFor(g, num, tokens, ap), x).value >= 0
  {
    var es := SetFor(g, num, tokens, ap);
    var i := FoundAt(es, x);
    SetForMembers(g, num, tokens, ap, es[i]);
  }

  lemma {:induction false} FoundAt(es: seq<Slot>, x: int) returns (i: nat)
    requires ActionOf(es, x).Some?
    ensures i < |es| && es[i] == Slot(x, ActionOf(es, x).value)
  {
    if es[0].lookahead == x {
      i := 0;
    } else {
      i := FoundAt(es[1..], x);
      i := i + 1;
    }
  }

  /** Reading the emitted arrays at an offset gives what the set holds. */
  lemma EmittedLookup(g: Grammar, num: seq<nat>, tokens: bool, ap: seq<Action>, tab: seq<Slot>, n: nat, ofst: int,
                      yyaction: seq<int>, yylookahead: seq<int>, nstate: nat, x: nat)
    requires Emitted(g, nstate, tab, n, yyaction, yylookahead) && Holds(tab, n, ofst, SetFor(g, num, tokens, ap))
    requires x < g.NSymbol()
    ensures var i := ofst + x; var found := ActionOf(SetFor(g, num, tokens, ap), x);
            if i < 0 || i >= |yyaction| || yylookahead[i] != x then found == None else found == Some(yyaction[i])
  {
    var es := SetFor(g, num, tokens, ap);
    assert Lookup(tab, n, ofst, x) == ActionOf(es, x);
    if ActionOf(es, x).Some? { SetForCodes(g, num, tokens, ap, x); }
  }

  lemma ShiftDecodes(g: Grammar, num: seq<nat>, lists: seq<seq<Action>>, t: Tables, tab: seq<Slot>, n: nat,
                     packed: seq<(int, seq<Slot>)>,
                     o: Offsets, s: nat, x: nat)
    requires |o.tkn| == |o.nt| == |lists| == |t.dflt| && s < |lists| && x < g.NSymbol() == t.nsymbol
    requires Emitted(g, t.nstate, tab, n, t.yyaction, t.yylookahead)
    requires forall p :: p in packed ==> Holds(tab, n, p.0, p.1)
    requires Placed(g, num, lists, packed, o, s, true)
    requires o.tkn[s].Some? ==>
             s < |t.shiftOfst| && t.shiftOfst[s] == o.tkn[s].value && o.tkn[s].value != t.shiftUseDflt
    requires o.tkn[s].None? ==> s >= |t.shiftOfst| || t.shiftOfst[s] == t.shiftUseDflt
    ensures FindShiftAction(t, s, x) ==
            var found := ActionOf(SetFor(g, num, true, lists[s]), x); if found.Some? then found else Some(t.dflt[s])
  {
    if o.tkn[s].Some? {
      assert (o.tkn[s].value, SetFor(g, num, true, lists[s])) in packed;
      EmittedLookup(g, num, true, lists[s], tab, n, o.tkn[s].value, t.yyaction, t.yylookahead, t.nstate, x);
    }
  }

  lemma ReduceDecodes(g: Grammar, num: seq<nat>, lists: seq<seq<Action>>, t: Tables, tab: seq<Slot>, n: nat,
                      packed: seq<(int, seq<Slot>)>,
                      o: Offsets, s: nat, x: nat)
    requires |o.tkn| == |o.nt| == |lists| && s < |lists| && x < g.NSymbol() == t.nsymbol
    requires Emitted(g, t.nstate, tab, n, t.yyaction, t.yylookahead)
    requires forall p :: p in packed ==> Holds(tab, n, p.0, p.1)
    requires Placed(g, num, lists, packed, o, s, false)
    requires o.nt[s].Some? ==>
             s < |t.reduceOfst| && t.reduceOfst[s] == o.nt[s].value && o.nt[s].value != t.reduceUseDflt
    requires o.nt[s].None? ==> s >= |t.reduceOfst| || t.reduceOfst[s] == t.reduceUseDflt
    ensures FindReduceAction(t, s, x) == ActionOf(SetFor(g, num, false, lists[s]), x)
  {
    if o.nt[s].Some? {
      assert (o.nt[s].value, SetFor(g, num, false, lists[s])) in packed;
      EmittedLookup(g, num, false, lists[s], tab, n, o.nt[s].value, t.yyaction, t.yylookahead, t.nstate, x);
    }
  }

  lemma TrimmedHolds(g: Grammar, num: seq<nat>, lists: seq<seq<Action>>, packed: seq<(int, seq<Slot>)>, o: Offsets,
                     tokens: bool, ofst: seq<int>)
    requires |o.tkn| == |o.nt| == |lists| && |ofst| <= |lists| && forall q :: q in packed ==> q.1 != []
    requires forall s, t :: 0 <= s < |lists| ==> Placed(g, num, lists, packed, o, s, t)
    requires forall s :: |ofst| <= s < |lists| ==> OffsetAt(o, tokens, s).None?
    requires ofst != [] ==> OffsetAt(o, tokens, |ofst| - 1).Some?
    ensures Trimmed(g, num, lists, tokens, ofst)
  {
    hide SetFor;
    forall s | |ofst| <= s < |lists| ensures SetFor(g, num, tokens, lists[s]) == [] {
      assert Placed(g, num, lists, packed, o, s, tokens);
    }
    if ofst != [] {
      assert Placed(g, num, lists, packed, o, |ofst| - 1, tokens);
    }
  }

  method ReportTable(g: Grammar, num: seq<nat>, lists: seq<seq<Action>>, counts: seq<Counts>) returns (t: Tables)
    requires g.WellFormed() && |counts| == |lists| && forall s :: 0 <= s < |lists| ==> LiveOnce(lists[s])
    requires forall s :: 0 <= s < |lists| ==>
                           && counts[s].nTkn == |SetFor(g, num, true, lists[s])| &&
                             counts[s].nNt == |SetFor(g, num, false, lists[s])|
                           && counts[s].iDflt == DefaultOf(g, |lists|, lists[s])
    ensures Decodes(g, num, lists, t)
    ensures Trimmed(g, num, lists, true, t.shiftOfst) && Trimmed(g, num, lists, false, t.reduceOfst)
  {
    hide LiveOnce, SetFor, DefaultOf, Lookup;
    var nstate := |lists|;
    var tab, p := PlaceSets(g, num, lists, counts);
    var slots := tab.aAction[..tab.nAction];
    var yyaction := seq(|slots|, k requires 0 <= k < |slots| => EmittedAction(g, nstate, slots[k]));
    var yylookahead := seq(|slots|, k requires 0 <= k < |slots| => EmittedLookahead(g, slots[k]));
    var shiftOfst := EmitOffsets(p.offsets.tkn, p.mnTkn - 1);
    var reduceOfst := EmitOffsets(p.offsets.nt, p.mnNt - 1);
    var dflt := seq(nstate, s requires 0 <= s < nstate => counts[s].iDflt);
    var ruleInfo := seq(|g.rules|, r requires 0 <= r < |g.rules| => (g.rules[r].lhs, |g.rules[r].rhs| % 256));
    t := Tables(nstate, |g.rules|, g.NSymbol(), yyaction, yylookahead, shiftOfst, p.mnTkn - 1, reduceOfst, p.mnNt - 1,
      dflt, ruleInfo);
    ghost var all, n, packed := tab.aAction[..], tab.nAction, tab.packed;
    assert Emitted(g, nstate, all, n, yyaction, yylookahead);
    forall q | q in packed ensures Holds(all, n, q.0, q.1) && q.1 != [] {
      var i :| 0 <= i < |packed| && packed[i] == q;
      assert Holds(tab.aAction[..], tab.nAction, packed[i].0, packed[i].1);
    }
    TrimmedHolds(g, num, lists, packed, p.offsets, true, shiftOfst);
    TrimmedHolds(g, num, lists, packed, p.offsets, false, reduceOfst);
    forall s, x | 0 <= s < |lists| && 0 <= x < g.nterminal
      ensures FindShiftAction(t, s, x) ==
              var found := ActionOf(SetFor(g, num, true, lists[s]), x); if found.Some? then found else Some(t.dflt[s])
    {
      ShiftDecodes(g, num, lists, t, all, n, packed, p.offsets, s, x);
    }
    forall s, x | 0 <= s < |lists| && 0 <= x < g.NSymbol()
      ensures FindReduceAction(t, s, x) == ActionOf(SetFor(g, num, false, lists[s]), x)
    {
      ReduceDecodes(g, num, lists, t, all, n, packed, p.offsets, s, x);
    }
  }
}
