/** `FindStates`, `getstate` and `buildshifts`: the states of the automaton, found
    depth first, with the links over which lookaheads will be propagated. */
module States {
  import opened Options
  import opened Grammars
  import opened FirstSets
  import opened Automata
  import opened Sorting
  import opened Closures
  import opened ActionLists

  /** A pointer to a configuration. */
  datatype ConfigRef = ConfigRef(state: nat, item: Item)

  datatype State = State(
    bp: seq<Item>,
    cfp: seq<Item>,
    fws: map<Item, set<nat>>,
    fplp: map<Item, seq<Item>>,
    bplp: map<Item, seq<ConfigRef>>,
    ap: seq<Action>)

  /** `Configcmp`. */
  function ConfigCmp(a: Item, b: Item): (rc: int)
    ensures rc == 0 <==> a == b
    ensures rc < 0 <==> a.rule < b.rule || (a.rule == b.rule && a.dot < b.dot)
  {
    if a.rule != b.rule then a.rule - b.rule else a.dot - b.dot
  }

  lemma ConfigCmpOrder()
    ensures TotalPreorder(ConfigCmp)
    ensures forall a, b :: ConfigCmp(a, b) <= 0 && ConfigCmp(b, a) <= 0 ==> a == b
  {
  }

  // ---------------------------------------------------------------------------
  // What the table holds

  /** Only the configurations that start off the first state come with a token. */
  function OwnBase(k: nat, basis: set<Item>): map<Item, set<nat>> {
    map it | it in basis :: if k == 0 then {0} else {}
  }

  ghost predicate StateBuilt(g: Grammar, lambda: set<nat>, first: seq<set<nat>>, st: State, k: nat) {
    && Sorted(ConfigCmp, st.bp) && NoDup(st.bp)
    && Sorted(ConfigCmp, st.cfp)
    && ClosureBuilt(g, lambda, first, OwnBase(k, Elems(st.bp)), Configs(st.cfp, st.fws, st.fplp))
    && st.bplp.Keys == Elems(st.cfp)
  }

  /** The basis reached from state `s` over symbol `x`. */
  function Target(g: Grammar, states: seq<State>, s: nat, x: nat): set<Item>
    requires s < |states|
  {
    GotoBasis(g, Elems(states[s].cfp), x)
  }

  predicate Shiftable(g: Grammar, states: seq<State>, s: nat, x: nat)
    requires s < |states|
  {
    exists it :: it in states[s].cfp && ShiftsOn(g, it, x)
  }

  ghost predicate ShiftsOk(g: Grammar, states: seq<State>, issued: set<(nat, nat)>, s: nat)
    requires s < |states|
  {
    && DistinctSymbols(states[s].ap)
    && forall a :: a in states[s].ap ==>
                     && a.typ == SHIFT && (s, a.sp) in issued
                     && a.arg < |states| && Elems(states[a.arg].bp) == Target(g, states, s, a.sp)
  }

  /** `ref` is where the basis configuration `it` of state `k` was shifted from. */
  ghost predicate CameFrom(g: Grammar, states: seq<State>, issued: set<(nat, nat)>, k: nat, it: Item, ref: ConfigRef)
    requires k < |states|
  {
    && ref.state < |states| && ref.item in states[ref.state].cfp && CanShift(g, ref.item)
    && Advance(ref.item) == it
    && (ref.state, Next(g, ref.item)) in issued
    && Target(g, states, ref.state, Next(g, ref.item)) == Elems(states[k].bp)
  }

  ghost predicate BackExact(g: Grammar, states: seq<State>, issued: set<(nat, nat)>, k: nat)
    requires k < |states|
  {
    forall it, ref :: it in states[k].bplp ==> (ref in states[k].bplp[it] <==> CameFrom(g, states, issued, k, it, ref))
  }

  ghost predicate IssuedOk(g: Grammar, states: seq<State>, issued: set<(nat, nat)>) {
    forall s, x :: (s, x) in issued ==>
                     && s < |states| && Shiftable(g, states, s, x)
                     && exists k :: 0 <= k < |states| && Elems(states[k].bp) == Target(g, states, s, x)
  }

  ghost predicate Distinct(states: seq<State>) {
    forall s, k :: 0 <= s < k < |states| ==> Elems(states[s].bp) != Elems(states[k].bp)
  }

  ghost predicate TableOk(g: Grammar, lambda: set<nat>, first: seq<set<nat>>, states: seq<State>,
                          issued: set<(nat, nat)>) {
    && (forall k :: 0 <= k < |states| ==> StateBuilt(g, lambda, first, states[k], k))
    && (forall k :: 0 <= k < |states| ==> ShiftsOk(g, states, issued, k))
    && (forall k :: 0 <= k < |states| ==> BackExact(g, states, issued, k))
    && IssuedOk(g, states, issued)
    && Distinct(states)
  }

  /** Every symbol the state can shift has its shift. */
  ghost predicate Finished(g: Grammar, st: State) {
    forall it :: it in st.cfp && CanShift(g, it) ==> exists a :: a in st.ap && a.sp == Next(g, it)
  }

  ghost predicate EnteredBefore(states: seq<State>, k: nat)
    requires k < |states|
  {
    exists s, a :: 0 <= s < k && a in states[s].ap && a.arg == k
  }

  /** The same state, but for links that lead into it. */
  predicate SameBut(a: State, b: State) {
    a.bp == b.bp && a.cfp == b.cfp && a.fws == b.fws && a.fplp == b.fplp && a.ap == b.ap
  }

  predicate Extends(a: seq<State>, b: seq<State>) {
    |a| <= |b| && forall s :: 0 <= s < |a| ==> SameBut(a[s], b[s])
  }

  /** As `Extends`, but the shifts of state `k` may have become more. */
  predicate Grew(a: seq<State>, b: seq<State>, k: nat) {
    && k < |a| <= |b|
    && (forall s :: 0 <= s < |a| && s != k ==> SameBut(a[s], b[s]))
    && SameBut(a[k], b[k].(ap := a[k].ap))
  }

  // ---------------------------------------------------------------------------
  // The three ways the table changes

  /** `Plink_copy` onto each configuration of an existing basis. */
  function Merged(states: seq<State>, k: nat, refs: map<Item, seq<ConfigRef>>): seq<State>
    requires k < |states|
  {
    var st := states[k];
    states[k := st.(bplp := map it | it in st.bplp :: if it in refs then refs[it] + st.bplp[it] else st.bplp[it])]
  }

  /** The back links that shifting `x` out of `s` gives the new basis. */
  function RefsFrom(g: Grammar, states: seq<State>, s: nat, x: nat): map<Item, seq<ConfigRef>>
    requires s < |states|
  {
    map it | it in Target(g, states, s, x) :: [ConfigRef(s, Item(it.rule, it.dot - 1))]
  }

  lemma RefsExact(g: Grammar, states: seq<State>, s: nat, x: nat, it: Item, ref: ConfigRef)
    requires s < |states|
    ensures (it in RefsFrom(g, states, s, x) && ref in RefsFrom(g, states, s, x)[it]) <==>
            (ref.state == s && ref.item in states[s].cfp && ShiftsOn(g, ref.item, x) && Advance(ref.item) == it)
  {
    if it in Target(g, states, s, x) {
      var j :| j in Elems(states[s].cfp) && ShiftsOn(g, j, x) && Advance(j) == it;
      assert j == Item(it.rule, it.dot - 1);
    }
  }

  /** Same bases and same members, whatever else may differ. */
  predicate SameShape(a: seq<State>, b: seq<State>) {
    |a| == |b| && forall s :: 0 <= s < |a| ==> a[s].bp == b[s].bp && a[s].cfp == b[s].cfp
  }

  lemma ShapeIssued(g: Grammar, a: seq<State>, b: seq<State>, issued: set<(nat, nat)>)
    requires |a| <= |b| && SameShape(a, b[..|a|]) && IssuedOk(g, a, issued)
    ensures IssuedOk(g, b, issued)
  {
    forall s, x | (s, x) in issued
      ensures s < |b| && Shiftable(g, b, s, x) && exists k :: 0 <= k < |b| && Elems(b[k].bp) == Target(g, b, s, x)
    {
      assert Shiftable(g, a, s, x) && b[s] == b[..|a|][s];
      var k :| 0 <= k < |a| && Elems(a[k].bp) == Target(g, a, s, x);
      assert b[k] == b[..|a|][k];
    }
  }

  lemma ShapeShifts(g: Grammar, a: seq<State>, b: seq<State>, issued: set<(nat, nat)>, issued': set<(nat, nat)>, q: nat)
    requires SameShape(a, b) && issued <= issued' && q < |a| && a[q].ap == b[q].ap && ShiftsOk(g, a, issued, q)
    ensures ShiftsOk(g, b, issued', q)
  {
  }

  lemma IssueOne(g: Grammar, states: seq<State>, issued: set<(nat, nat)>, s: nat, x: nat, k: nat)
    requires IssuedOk(g, states, issued) && s < |states| && Shiftable(g, states, s, x)
    requires k < |states| && Elems(states[k].bp) == Target(g, states, s, x)
    ensures IssuedOk(g, states, issued + {(s, x)})
  {
  }

  /** Where a configuration came from, after one more shift has been issued. */
  lemma CameFromOneMore(g: Grammar, a: seq<State>, b: seq<State>, issued: set<(nat, nat)>, s: nat, x: nat, k: nat,
                        it: Item, ref: ConfigRef)
    requires SameShape(a, b) && k < |a| && s < |a|
    ensures CameFrom(g, b, issued + {(s, x)}, k, it, ref) <==>
            || CameFrom(g, a, issued, k, it, ref)
            || (&& ref.state == s && ref.item in a[s].cfp && ShiftsOn(g, ref.item, x) && Advance(ref.item) == it
                && Target(g, a, s, x) == Elems(a[k].bp))
  {
  }

  lemma MergedOk(g: Grammar, lambda: set<nat>, first: seq<set<nat>>, states: seq<State>, issued: set<(nat, nat)>,
                 k: nat, s: nat, x: nat)
    requires TableOk(g, lambda, first, states, issued)
    requires k < |states| && s < |states| && Shiftable(g, states, s, x)
    requires Elems(states[k].bp) == Target(g, states, s, x)
    ensures TableOk(g, lambda, first, Merged(states, k, RefsFrom(g, states, s, x)), issued + {(s, x)})
    ensures Extends(states, Merged(states, k, RefsFrom(g, states, s, x)))
  {
    hide ClosureBuilt, CameFrom, Sorted, NoDup, ShiftsOk, GotoBasis, BackExact, IssuedOk, StateBuilt, RefsFrom;
    var after, issued' := Merged(states, k, RefsFrom(g, states, s, x)), issued + {(s, x)};
    MergedBuilt(g, lambda, first, states, k, RefsFrom(g, states, s, x));
    forall q | 0 <= q < |after| ensures ShiftsOk(g, after, issued', q) {
      ShapeShifts(g, states, after, issued, issued', q);
    }
    forall q | 0 <= q < |after| ensures BackExact(g, after, issued', q) {
      MergedBack(g, states, issued, k, s, x, q);
    }
    assert after == after[..|states|];
    ShapeIssued(g, states, after, issued);
    IssueOne(g, after, issued, s, x, k);
  }

  lemma MergedBuilt(g: Grammar, lambda: set<nat>, first: seq<set<nat>>, states: seq<State>, k: nat, refs: map<Item,
                    seq<ConfigRef>>)
    requires k < |states| && forall q :: 0 <= q < |states| ==> StateBuilt(g, lambda, first, states[q], q)
    ensures forall q :: 0 <= q < |states| ==> StateBuilt(g, lambda, first, Merged(states, k, refs)[q], q)
  {
    hide ClosureBuilt, Sorted, NoDup;
    assert StateBuilt(g, lambda, first, states[k], k);
    assert StateBuilt(g, lambda, first, Merged(states, k, refs)[k], k);
  }

  lemma MergedBack(g: Grammar, states: seq<State>, issued: set<(nat, nat)>, k: nat, s: nat, x: nat, q: nat)
    requires k < |states| && s < |states| && Elems(states[k].bp) == Target(g, states, s, x) && q < |states|
    requires BackExact(g, states, issued, q) && Distinct(states)
    ensures BackExact(g, Merged(states, k, RefsFrom(g, states, s, x)), issued + {(s, x)}, q)
  {
    hide CameFrom;
    var refs := RefsFrom(g, states, s, x);
    var after, issued' := Merged(states, k, refs), issued + {(s, x)};
    assert q != k ==> Elems(states[q].bp) != Elems(states[k].bp);
    forall it, ref | it in after[q].bplp ensures ref in after[q].bplp[it] <==> CameFrom(g, after, issued', q, it, ref) {
      assert ref in states[q].bplp[it] <==> CameFrom(g, states, issued, q, it, ref);
      RefsExact(g, states, s, x, it, ref);
      CameFromOneMore(g, states, after, issued, s, x, q, it, ref);
    }
  }

  /** Appending a state nothing has been shifted to yet. */
  lemma AppendedOk(g: Grammar, lambda: set<nat>, first: seq<set<nat>>, states: seq<State>, issued: set<(nat, nat)>,
                   st: State, s: nat, x: nat)
    requires TableOk(g, lambda, first, states, issued)
    requires s < |states| && Shiftable(g, states, s, x) && Elems(st.bp) == Target(g, states, s, x)
    requires forall k :: 0 <= k < |states| ==> Elems(states[k].bp) != Elems(st.bp)
    requires StateBuilt(g, lambda, first, st, |states|) && st.ap == []
    requires forall it :: it in st.bplp ==> st.bplp[it] == if it in st.bp then RefsFrom(g, states, s, x)[it] else []
    ensures TableOk(g, lambda, first, states + [st], issued + {(s, x)})
  {
    hide ClosureBuilt, CameFrom, Sorted, NoDup;
    var after, issued' := states + [st], issued + {(s, x)};
    forall q | 0 <= q < |after| ensures ShiftsOk(g, after, issued', q) {
      if q < |states| { assert ShiftsOk(g, states, issued, q); }
    }
    forall q | 0 <= q < |after| ensures BackExact(g, after, issued', q) {
      if q < |states| {
        AppendedBackOld(g, states, issued, st, s, x, q);
      } else {
        AppendedBackNew(g, states, issued, st, s, x);
      }
    }
    assert after[..|states|] == states;
    ShapeIssued(g, states, after, issued);
    assert Shiftable(g, states, s, x) && Shiftable(g, after, s, x);
    IssueOne(g, after, issued, s, x, |states|);
  }

  lemma AppendedBackOld(g: Grammar, states: seq<State>, issued: set<(nat, nat)>, st: State, s: nat, x: nat, q: nat)
    requires s < |states| && Elems(st.bp) == Target(g, states, s, x) && q < |states|
    requires IssuedOk(g, states, issued) && BackExact(g, states, issued, q) && Elems(states[q].bp) != Elems(st.bp)
    ensures BackExact(g, states + [st], issued + {(s, x)}, q)
  {
    var after, issued' := states + [st], issued + {(s, x)};
    forall it, ref | it in after[q].bplp ensures ref in after[q].bplp[it] <==> CameFrom(g, after, issued', q, it, ref) {
      assert ref in states[q].bplp[it] <==> CameFrom(g, states, issued, q, it, ref);
    }
  }

  lemma AppendedBackNew(g: Grammar, states: seq<State>, issued: set<(nat, nat)>, st: State, s: nat, x: nat)
    requires s < |states| && Elems(st.bp) == Target(g, states, s, x)
    requires IssuedOk(g, states, issued)
    requires forall k :: 0 <= k < |states| ==> Elems(states[k].bp) != Elems(st.bp)
    requires forall it :: it in st.bplp ==> st.bplp[it] == if it in st.bp then RefsFrom(g, states, s, x)[it] else []
    ensures BackExact(g, states + [st], issued + {(s, x)}, |states|)
  {
    hide CameFrom, RefsFrom, IssuedOk, Target;
    forall it, ref | it in st.bplp
      ensures ref in st.bplp[it] <==> CameFrom(g, states + [st], issued + {(s, x)}, |states|, it, ref)
    {
      AppendedRef(g, states, issued, st, s, x, it, ref);
    }
  }

  lemma AppendedRef(g: Grammar, states: seq<State>, issued: set<(nat, nat)>, st: State, s: nat, x: nat, it: Item,
                    ref: ConfigRef)
    requires s < |states| && Elems(st.bp) == Target(g, states, s, x)
    requires IssuedOk(g, states, issued)
    requires forall k :: 0 <= k < |states| ==> Elems(states[k].bp) != Elems(st.bp)
    requires it in st.bplp && st.bplp[it] == if it in st.bp then RefsFrom(g, states, s, x)[it] else []
    ensures ref in st.bplp[it] <==> CameFrom(g, states + [st], issued + {(s, x)}, |states|, it, ref)
  {
    RefsExact(g, states, s, x, it, ref);
    assert it in st.bp <==> it in Elems(st.bp);
  }

  /** `Action_add` of a shift. */
  function WithShift(states: seq<State>, k: nat, x: nat, n: nat): seq<State>
    requires k < |states|
  {
    states[k := states[k].(ap := [Action(x, SHIFT, n)] + states[k].ap)]
  }

  lemma WithShiftOk(g: Grammar, lambda: set<nat>, first: seq<set<nat>>, states: seq<State>, issued: set<(nat, nat)>,
                    k: nat, x: nat, n: nat)
    requires TableOk(g, lambda, first, states, issued)
    requires k < |states| && n < |states| && (k, x) in issued && Elems(states[n].bp) == Target(g, states, k, x)
    requires forall a :: a in states[k].ap ==> a.sp != x
    ensures TableOk(g, lambda, first, WithShift(states, k, x, n), issued)
  {
    hide ClosureBuilt, CameFrom, Sorted, NoDup, ShiftsOk, GotoBasis, BackExact, IssuedOk, Target, StateBuilt;
    var after := WithShift(states, k, x, n);
    WithShiftBuilt(g, lambda, first, states, k, x, n);
    forall q | 0 <= q < |after| ensures ShiftsOk(g, after, issued, q) {
      if q == k {
        WithShiftShifts(g, states, issued, k, x, n);
      } else {
        ShapeShifts(g, states, after, issued, issued, q);
      }
    }
    forall q | 0 <= q < |after| ensures BackExact(g, after, issued, q) {
      WithShiftBack(g, states, issued, k, x, n, q);
    }
    assert after == after[..|states|];
    ShapeIssued(g, states, after, issued);
  }

  lemma WithShiftBuilt(g: Grammar, lambda: set<nat>, first: seq<set<nat>>, states: seq<State>, k: nat, x: nat, n: nat)
    requires k < |states| && forall q :: 0 <= q < |states| ==> StateBuilt(g, lambda, first, states[q], q)
    ensures forall q :: 0 <= q < |states| ==> StateBuilt(g, lambda, first, WithShift(states, k, x, n)[q], q)
  {
    hide ClosureBuilt, Sorted, NoDup;
    assert StateBuilt(g, lambda, first, states[k], k);
    assert StateBuilt(g, lambda, first, WithShift(states, k, x, n)[k], k);
  }

  lemma WithShiftShifts(g: Grammar, states: seq<State>, issued: set<(nat, nat)>, k: nat, x: nat, n: nat)
    requires k < |states| && n < |states| && (k, x) in issued && Elems(states[n].bp) == Target(g, states, k, x)
    requires ShiftsOk(g, states, issued, k) && forall a :: a in states[k].ap ==> a.sp != x
    ensures ShiftsOk(g, WithShift(states, k, x, n), issued, k)
  {
  }

  lemma WithShiftBack(g: Grammar, states: seq<State>, issued: set<(nat, nat)>, k: nat, x: nat, n: nat, q: nat)
    requires k < |states| && (k, x) in issued && q < |states| && BackExact(g, states, issued, q)
    ensures BackExact(g, WithShift(states, k, x, n), issued, q)
  {
    hide CameFrom;
    var after := WithShift(states, k, x, n);
    assert issued + {(k, x)} == issued;
    forall it, ref | it in after[q].bplp ensures ref in after[q].bplp[it] <==> CameFrom(g, after, issued, q, it, ref) {
      assert ref in states[q].bplp[it] <==> CameFrom(g, states, issued, q, it, ref);
      CameFromOneMore(g, states, after, issued, k, x, q, it, ref);
      CameFromOneMore(g, states, states, issued, k, x, q, it, ref);
    }
  }

  // ---------------------------------------------------------------------------
  // The depth-first search

  ghost function AllBases(g: Grammar): set<set<Item>> {
    set b: set<Item> | b <= AllItems(g)
  }

  ghost function Bases(states: seq<State>): set<set<Item>> {
    set k | 0 <= k < |states| :: Elems(states[k].bp)
  }

  /** The configurations of a list whose dot is in front of `sp`, taken from
      position `i` on and marked COMPLETE: the inner loop of `buildshifts`. */
  method TakeShifted(g: Grammar, cfp: seq<Item>, i: nat, sp: nat, complete: set<Item>)
    returns (basis: seq<Item>, complete': set<Item>)
    requires i <= |cfp| && NoDup(cfp)
    requires forall q :: 0 <= q < |cfp| && ShiftsOn(g, cfp[q], sp) ==> i <= q && cfp[q] !in complete
    ensures NoDup(basis) && Elems(basis) == GotoBasis(g, Elems(cfp), sp)
    ensures complete' == complete + set it | it in cfp && ShiftsOn(g, it, sp)
  {
    basis, complete' := [], complete;
    for j := i to |cfp|
      invariant NoDup(basis)
      invariant forall it :: it in basis <==> exists q :: i <= q < j && ShiftsOn(g, cfp[q], sp) && it == Advance(cfp[q])
      invariant complete' == complete + set q | i <= q < j && ShiftsOn(g, cfp[q], sp) :: cfp[q]
    {
      var bcfp := cfp[j];
      if bcfp !in complete' && bcfp.rule < |g.rules| && bcfp.dot < |g.rules[bcfp.rule].rhs| &&
        g.rules[bcfp.rule].rhs[bcfp.dot] == sp {
        complete' := complete' + {bcfp};
        assert Advance(bcfp) !in basis;
        basis := basis + [Advance(bcfp)];
      }
    }
    forall it ensures it in Elems(basis) <==> it in GotoBasis(g, Elems(cfp), sp) {
      if it in GotoBasis(g, Elems(cfp), sp) {
        var j :| j in Elems(cfp) && ShiftsOn(g, j, sp) && Advance(j) == it;
        var q :| 0 <= q < |cfp| && cfp[q] == j;
      }
    }
  }

  /** The state table (`x3a`), with the grammar it is built for. */
  class StateTable {
    const g: Grammar
    const lambda: set<nat>
    const first: seq<set<nat>>
    var states: seq<State>
    /** The (state, symbol) pairs whose successor has been asked for. */
    ghost var issued: set<(nat, nat)>

    ghost predicate Valid()
      reads this
    {
      g.WellFormed() && FamilyOk(g, first) && TableOk(g, lambda, first, states, issued)
    }

    constructor (g: Grammar, lambda: set<nat>, first: seq<set<nat>>)
      requires g.WellFormed() && FamilyOk(g, first)
      ensures Valid() && states == [] && issued == {}
      ensures this.g == g && this.lambda == lambda && this.first == first
    {
      this.g := g;
      this.lambda := lambda;
      this.first := first;
      states, issued := [], {};
    }

    /** `State_find`: the state with this sorted basis, or the table's size. */
    method Find(bp: seq<Item>) returns (k: nat)
      requires Valid() && Sorted(ConfigCmp, bp) && NoDup(bp)
      ensures k <= |states|
      ensures k < |states| ==> Elems(states[k].bp) == Elems(bp)
      ensures k == |states| ==> forall q :: 0 <= q < |states| ==> Elems(states[q].bp) != Elems(bp)
    {
      k := 0;
      while k < |states| && states[k].bp != bp
        invariant k <= |states|
        invariant forall q :: 0 <= q < k ==> Elems(states[q].bp) != Elems(bp)
      {
        if Elems(states[k].bp) == Elems(bp) {
          ConfigCmpOrder();
          assert StateBuilt(g, lambda, first, states[k], k);
          SortedUnique(ConfigCmp, states[k].bp, bp);
        }
        k := k + 1;
      }
    }
  
    /** The configuration list that `getstate` finds: for the first state the
        start rules, otherwise what was shifted out of the parent state. */
    ghost predicate BasisOk(basis: seq<Item>, base: map<Item, set<nat>>, refs: map<Item, seq<ConfigRef>>,
                            parent: Option<(nat, nat)>)
      reads this
    {
      && NoDup(basis) && (forall it :: it in basis ==> ItemOk(g, it))
      && base == OwnBase(|states|, Elems(basis))
      && match parent
         case None => states == [] && issued == {} && Elems(basis) == StartItems(g) && refs == map[]
         case Some((s, x)) =>
           && s < |states| && Shiftable(g, states, s, x) && (s, x) !in issued
           && Elems(basis) == Target(g, states, s, x) && refs == RefsFrom(g, states, s, x)
    }

    /** Everything at or above `from` is done with. */
    ghost predicate DoneFrom(from: nat)
      reads this
    {
      forall s :: from <= s < |states| ==> Finished(g, states[s])
    }

    ghost predicate IssuedGrew(before: set<(nat, nat)>, from: nat, parent: Option<(nat, nat)>)
      reads this
    {
      && before <= issued
      && (parent.Some? ==> parent.value in issued)
      && forall p :: p in issued && p.0 < from ==> p in before || parent == Some(p)
    }

    method GetState(basis: seq<Item>, base: map<Item, set<nat>>, refs: map<Item, seq<ConfigRef>>,
                    ghost parent: Option<(nat, nat)>)
      returns (k: nat)
      requires Valid() && BasisOk(basis, base, refs, parent)
      modifies this
      ensures Valid() && Extends(old(states), states)
      ensures k < |states| && k <= |old(states)| && Elems(states[k].bp) == Elems(basis)
      ensures IssuedGrew(old(issued), |old(states)|, parent)
      ensures DoneFrom(|old(states)|)
      ensures forall j :: |old(states)| <= j < |states| && j != k ==> EnteredBefore(states, j)
      decreases AllBases(g) - Bases(states), 0
    {
      hide TableOk, OwnBase, GotoBasis, Sorted, NoDup;
      var bp := StableSort(ConfigCmp, basis);
      SortedBasis(basis);
      k := Find(bp);
      if k < |states| {
        MergedOk(g, lambda, first, states, issued, k, parent.value.0, parent.value.1);
        states := Merged(states, k, refs);
        issued := issued + {parent.value};
      } else {
        BasesGrow(g, states, basis, bp);
        AddState(basis, bp, base, refs, parent);
        BuildShifts(k);
      }
    }

    method AddState(basis: seq<Item>, bp: seq<Item>, base: map<Item, set<nat>>, refs: map<Item, seq<ConfigRef>>,
                    ghost parent: Option<(nat, nat)>)
      requires Valid() && BasisOk(basis, base, refs, parent)
      requires bp == StableSort(ConfigCmp, basis) && forall q :: 0 <= q < |states| ==> Elems(states[q].bp) != Elems(bp)
      modifies this
      ensures Valid() && |states| == |old(states)| + 1 && states[..|old(states)|] == old(states)
      ensures states[|old(states)|].bp == bp && states[|old(states)|].ap == []
      ensures issued == old(issued) + if parent.Some? then {parent.value} else {}
      ensures forall p :: p in issued ==> p.0 < |old(states)|
      ensures Bases(states) == old(Bases(states)) + {Elems(bp)}
    {
      hide TableOk, StateBuilt, ClosureBuilt, OwnBase, GotoBasis, Sorted;
      SortedBasis(basis);
      OwnBaseKeys(|states|, Elems(basis));
      var c := Closure(g, lambda, first, basis, base);
      var st := NewState(bp, c, refs);
      NewStateBuilt(g, lambda, first, basis, bp, base, refs, c, |states|);
      if parent.Some? {
        NewStateRefs(g, lambda, first, states, bp, base, c, parent.value.0, parent.value.1);
        AppendedOk(g, lambda, first, states, issued, st, parent.value.0, parent.value.1);
        IssuedBelow(g, lambda, first, states, issued);
      } else {
        FirstStateOk(g, lambda, first, st);
        assert states + [st] == [st] && issued + {} == {};
      }
      BasesAppend(states, st);
      states := states + [st];
      issued := issued + if parent.Some? then {parent.value} else {};
    }

    /** The successor of state `k` over `sp`, and the shift to it. */
    method ShiftOver(k: nat, sp: nat, basis: seq<Item>)
      requires Valid() && k < |states| && Shiftable(g, states, k, sp) && (k, sp) !in issued
      requires NoDup(basis) && Elems(basis) == Target(g, states, k, sp)
      requires forall a :: a in states[k].ap ==> a.sp != sp
      modifies this
      ensures Valid() && Grew(old(states), states, k)
      ensures exists n :: states[k].ap == [Action(sp, SHIFT, n)] + old(states)[k].ap
      ensures IssuedGrew(old(issued), |old(states)|, Some((k, sp)))
      ensures DoneFrom(|old(states)|)
      ensures forall j :: |old(states)| <= j < |states| ==> EnteredBefore(states, j)
      decreases AllBases(g) - Bases(states), 1
    {
      hide TableOk, GotoBasis, NoDup;
      TargetOk(g, lambda, first, states, issued, k, sp);
      var n := GetState(basis, OwnBase(|states|, Elems(basis)), RefsFrom(g, states, k, sp), Some((k, sp)));
      ghost var before := states;
      WithShiftOk(g, lambda, first, states, issued, k, sp, n);
      states := WithShift(states, k, sp, n);
      assert Action(sp, SHIFT, n) in states[k].ap;
      forall j | |old(states)| <= j < |states| && j != n ensures EnteredBefore(states, j) {
        assert EnteredBefore(before, j);
        var s, a :| 0 <= s < j && a in before[s].ap && a.arg == j;
        assert a in states[s].ap;
      }
    }

    /** Successors of state `k` are being found; the members in `complete` have
        contributed to theirs. */
    ghost predicate Building(before: seq<State>, was: set<(nat, nat)>, k: nat, complete: set<Item>)
      reads this
    {
      && Valid() && Grew(before, states, k)
      && IssuedGrew(was, k, None) && DoneFrom(k + 1)
      && (forall j :: k < j < |states| ==> EnteredBefore(states, j))
      && (forall x :: (k, x) in issued <==> exists a :: a in states[k].ap && a.sp == x)
      && (forall it :: it in complete <==> it in states[k].cfp && CanShift(g, it) && (k, Next(g, it)) in issued)
    }

    /** The turn of one configuration that has not contributed yet. */
    method ShiftNext(k: nat, i: nat, complete: set<Item>, ghost before: seq<State>, ghost was: set<(nat, nat)>)
      returns (complete': set<Item>)
      requires Building(before, was, k, complete) && i < |states[k].cfp|
      requires states[k].cfp[i] !in complete && CanShift(g, states[k].cfp[i])
      requires forall q :: 0 <= q < i && CanShift(g, states[k].cfp[q]) ==> states[k].cfp[q] in complete
      modifies this
      ensures Building(before, was, k, complete') && complete <= complete'
      ensures states[k].cfp == old(states)[k].cfp && states[k].cfp[i] in complete'
      decreases AllBases(g) - Bases(states), 2
    {
      hide TableOk, GotoBasis, Finished;
      ghost var mid := states;
      var cfp := states[k].cfp;
      var sp := Next(g, cfp[i]);
      CfpNoDup(g, lambda, first, states, issued, k);
      assert Shiftable(g, states, k, sp) by { assert cfp[i] in cfp && ShiftsOn(g, cfp[i], sp); }
      var basis;
      basis, complete' := TakeShifted(g, cfp, i, sp, complete);
      ShiftOver(k, sp, basis);
      EnteredStays(mid, states, k);
      FinishedStays(g, mid, states, k);
    }

    method BuildShifts(k: nat)
      requires Valid() && k + 1 == |states| && states[k].ap == []
      requires forall p :: p in issued ==> p.0 < k
      modifies this
      ensures Valid() && |old(states)| <= |states| && Extends(old(states)[..k], states)
      ensures states[k].bp == old(states)[k].bp
      ensures IssuedGrew(old(issued), k, None) && DoneFrom(k)
      ensures forall j :: k < j < |states| ==> EnteredBefore(states, j)
      decreases AllBases(g) - Bases(states), 3
    {
      hide TableOk, Finished;
      var cfp := states[k].cfp;
      var complete: set<Item> := {};
      for i := 0 to |cfp|
        invariant Building(old(states), old(issued), k, complete) && states[k].cfp == cfp
        invariant forall q :: 0 <= q < i && CanShift(g, cfp[q]) ==> cfp[q] in complete
      {
        if cfp[i] !in complete && CanShift(g, cfp[i]) {
          BasesKept(old(states), states, k);
          complete := ShiftNext(k, i, complete, old(states), old(issued));
        }
      }
      AllShifted(g, states[k], issued, k, complete);
    }
  }

  // ---------------------------------------------------------------------------
  // Facts the search relies on

  lemma SortedBasis(basis: seq<Item>)
    requires NoDup(basis)
    ensures var bp := StableSort(ConfigCmp, basis); Sorted(ConfigCmp, bp) && NoDup(bp) && Elems(bp) == Elems(basis)
  {
    ConfigCmpOrder();
    StableSortSame(ConfigCmp, basis);
    StableSortSorted(ConfigCmp, basis);
  }

  lemma BasesGrow(g: Grammar, states: seq<State>, basis: seq<Item>, bp: seq<Item>)
    requires Elems(bp) == Elems(basis) && forall it :: it in basis ==> ItemOk(g, it)
    requires forall q :: 0 <= q < |states| ==> Elems(states[q].bp) != Elems(bp)
    ensures Elems(bp) in AllBases(g) && Elems(bp) !in Bases(states)
  {
    assert Elems(bp) <= AllItems(g);
  }

  lemma BasesAppend(states: seq<State>, st: State)
    ensures Bases(states + [st]) == Bases(states) + {Elems(st.bp)}
  {
    var after := states + [st];
    forall b ensures b in Bases(after) <==> b in Bases(states) + {Elems(st.bp)} {
      if b in Bases(states) {
        var k :| 0 <= k < |states| && Elems(states[k].bp) == b;
        assert after[k] == states[k];
      }
      assert after[|states|] == st;
    }
  }

  lemma OwnBaseKeys(k: nat, basis: set<Item>)
    ensures OwnBase(k, basis).Keys == basis
  {
  }

  lemma CfpNoDup(g: Grammar, lambda: set<nat>, first: seq<set<nat>>, states: seq<State>, issued: set<(nat, nat)>,
                 k: nat)
    requires TableOk(g, lambda, first, states, issued) && k < |states|
    ensures NoDup(states[k].cfp)
  {
    assert StateBuilt(g, lambda, first, states[k], k);
  }

  lemma TargetOk(g: Grammar, lambda: set<nat>, first: seq<set<nat>>, states: seq<State>, issued: set<(nat, nat)>,
                 k: nat, x: nat)
    requires TableOk(g, lambda, first, states, issued) && k < |states|
    ensures forall it :: it in Target(g, states, k, x) ==> ItemOk(g, it)
  {
    assert StateBuilt(g, lambda, first, states[k], k);
  }

  lemma BasesKept(a: seq<State>, b: seq<State>, k: nat)
    requires Grew(a, b, k)
    ensures Bases(a) <= Bases(b)
  {
    forall s | 0 <= s < |a| ensures Elems(a[s].bp) in Bases(b) {
      assert a[s].bp == b[s].bp;
    }
  }

  lemma FinishedStays(g: Grammar, a: seq<State>, b: seq<State>, k: nat)
    requires Grew(a, b, k) && forall j :: k < j < |a| ==> Finished(g, a[j])
    ensures forall j :: k < j < |a| ==> Finished(g, b[j])
  {
    forall j | k < j < |a| ensures Finished(g, b[j]) {
      assert Finished(g, a[j]) && SameBut(a[j], b[j]);
    }
  }

  lemma AllShifted(g: Grammar, st: State, issued: set<(nat, nat)>, k: nat, complete: set<Item>)
    requires forall x :: (k, x) in issued <==> exists a :: a in st.ap && a.sp == x
    requires forall it :: it in complete ==> it in st.cfp && CanShift(g, it) && (k, Next(g, it)) in issued
    requires forall q :: 0 <= q < |st.cfp| && CanShift(g, st.cfp[q]) ==> st.cfp[q] in complete
    ensures Finished(g, st)
  {
  }

  lemma EnteredStays(a: seq<State>, b: seq<State>, k: nat)
    requires Grew(a, b, k) && forall x :: x in a[k].ap ==> x in b[k].ap
    requires forall j :: k < j < |a| ==> EnteredBefore(a, j)
    ensures forall j :: k < j < |a| ==> EnteredBefore(b, j)
  {
    forall j | k < j < |a| ensures EnteredBefore(b, j) {
      assert EnteredBefore(a, j);
      var s, x :| 0 <= s < j && x in a[s].ap && x.arg == j;
      assert x in b[s].ap;
    }
  }

  /** A new state's record, its closure sorted. */
  function NewState(bp: seq<Item>, c: Configs, refs: map<Item, seq<ConfigRef>>): State {
    State(bp, StableSort(ConfigCmp, c.current), c.fws, c.fplp,
          map it | it in c.fws :: if it in refs then refs[it] else [], [])
  }

  lemma NewStateBuilt(g: Grammar, lambda: set<nat>, first: seq<set<nat>>, basis: seq<Item>, bp: seq<Item>,
                      base: map<Item, set<nat>>, refs: map<Item, seq<ConfigRef>>, c: Configs, k: nat)
    requires NoDup(basis) && bp == StableSort(ConfigCmp, basis) && base == OwnBase(k, Elems(basis))
    requires ClosureBuilt(g, lambda, first, base, c)
    ensures StateBuilt(g, lambda, first, NewState(bp, c, refs), k)
  {
    hide IsClosure, SeedsExact, LinksExact, Sorted, StableSort, ConfigCmp, NoDup;
    SortedBasis(basis);
    SortedBasis(c.current);
    StableSortSame(ConfigCmp, c.current);
  }

  lemma NewStateRefs(g: Grammar, lambda: set<nat>, first: seq<set<nat>>, states: seq<State>, bp: seq<Item>,
                     base: map<Item, set<nat>>, c: Configs, s: nat, x: nat)
    requires s < |states| && Elems(bp) == Target(g, states, s, x)
    ensures var st := NewState(bp, c, RefsFrom(g, states, s, x));
            forall it :: it in st.bplp ==> st.bplp[it] == if it in st.bp then RefsFrom(g, states, s, x)[it] else []
  {
    assert forall it :: it in bp <==> it in Elems(bp);
  }

  lemma FirstStateOk(g: Grammar, lambda: set<nat>, first: seq<set<nat>>, st: State)
    requires StateBuilt(g, lambda, first, st, 0) && st.ap == [] && forall it :: it in st.bplp ==> st.bplp[it] == []
    ensures TableOk(g, lambda, first, [st], {})
  {
  }

  lemma IssuedBelow(g: Grammar, lambda: set<nat>, first: seq<set<nat>>, states: seq<State>, issued: set<(nat, nat)>)
    requires TableOk(g, lambda, first, states, issued)
    ensures forall p :: p in issued ==> p.0 < |states|
  {
    forall p | p in issued ensures p.0 < |states| {
      assert (p.0, p.1) in issued;
    }
  }

  // ---------------------------------------------------------------------------
  // The whole construction

  /** The automaton that a finished table stands for. */
  function Abstract(states: seq<State>): Automaton {
    seq(|states|, s requires 0 <= s < |states| =>
      AState(Elems(states[s].bp), Elems(states[s].cfp), TransOf(states[s].ap)))
  }

  /** In a finished table the back links are the shifts, reversed. */
  ghost predicate BackLinksExact(g: Grammar, states: seq<State>) {
    forall k, it, ref :: 0 <= k < |states| && it in states[k].bplp ==>
                           (ref in states[k].bplp[it] <==>
                            && ref.state < |states| && ref.item in states[ref.state].cfp && CanShift(g, ref.item)
                            && Advance(ref.item) == it
                            && Action(Next(g, ref.item), SHIFT, k) in states[ref.state].ap)
  }

  ghost predicate Constructed(g: Grammar, lambda: set<nat>, first: seq<set<nat>>, states: seq<State>) {
    && IsCanonical(g, Abstract(states))
    && (forall k :: 0 <= k < |states| ==> StateBuilt(g, lambda, first, states[k], k))
    && (forall k :: 0 <= k < |states| ==> DistinctSymbols(states[k].ap) && forall a :: a in states[k].ap ==>
      a.typ == SHIFT)
    && BackLinksExact(g, states)
  }

  ghost predicate TableDone(g: Grammar, lambda: set<nat>, first: seq<set<nat>>, states: seq<State>,
                            issued: set<(nat, nat)>) {
    && TableOk(g, lambda, first, states, issued)
    && (forall s :: 0 <= s < |states| ==> Finished(g, states[s]))
    && (forall j :: 0 < j < |states| ==> EnteredBefore(states, j))
    && |states| > 0 && Elems(states[0].bp) == StartItems(g)
  }

  lemma DoneTrans(g: Grammar, lambda: set<nat>, first: seq<set<nat>>, states: seq<State>, issued: set<(nat, nat)>,
                  s: nat)
    requires TableDone(g, lambda, first, states, issued) && s < |states|
    ensures TransOk(g, Abstract(states), s)
  {
    hide StateBuilt, BackExact, Distinct;
    var a, st := Abstract(states), states[s];
    assert ShiftsOk(g, states, issued, s);
    forall it | it in a[s].items && CanShift(g, it) ensures Next(g, it) in a[s].trans {
      var x :| x in st.ap && x.sp == Next(g, it);
      TransOfExact(st.ap, x.sp, x.arg);
    }
    forall x | x in a[s].trans
      ensures (exists it :: it in a[s].items && ShiftsOn(g, it, x)) && a[s].trans[x] < |a|
      ensures a[a[s].trans[x]].basis == GotoBasis(g, a[s].items, x)
    {
      TransOfExact(st.ap, x, a[s].trans[x]);
      assert (s, x) in issued;
      assert Shiftable(g, states, s, x);
      var it :| it in st.cfp && ShiftsOn(g, it, x);
      assert it in a[s].items;
    }
  }

  lemma DoneState(g: Grammar, lambda: set<nat>, first: seq<set<nat>>, states: seq<State>, issued: set<(nat, nat)>,
                  s: nat)
    requires TableDone(g, lambda, first, states, issued) && s < |states|
    ensures StateOk(g, Abstract(states), s)
  {
    hide TransOk, SeedsExact, LinksExact, Sorted, NoDup, TransOf, ShiftsOk, BackExact, IssuedOk, Distinct;
    DoneTrans(g, lambda, first, states, issued, s);
    assert StateBuilt(g, lambda, first, states[s], s);
  }

  lemma DoneEntered(g: Grammar, lambda: set<nat>, first: seq<set<nat>>, states: seq<State>, issued: set<(nat, nat)>,
                    k: nat)
    requires TableDone(g, lambda, first, states, issued) && 0 < k < |states|
    ensures Entered(Abstract(states), k)
  {
    hide StateBuilt, BackExact, IssuedOk, Distinct, Finished;
    assert EnteredBefore(states, k);
    var s, x :| 0 <= s < k && x in states[s].ap && x.arg == k;
    assert ShiftsOk(g, states, issued, s);
    TransOfExact(states[s].ap, x.sp, k);
    assert x.sp in Abstract(states)[s].trans && Abstract(states)[s].trans[x.sp] == k;
  }

  lemma DoneShifts(g: Grammar, lambda: set<nat>, first: seq<set<nat>>, states: seq<State>, issued: set<(nat, nat)>,
                   k: nat)
    requires TableDone(g, lambda, first, states, issued) && k < |states|
    ensures DistinctSymbols(states[k].ap) && forall a :: a in states[k].ap ==> a.typ == SHIFT
  {
    assert ShiftsOk(g, states, issued, k);
  }

  lemma DoneConstructed(g: Grammar, lambda: set<nat>, first: seq<set<nat>>, states: seq<State>, issued: set<(nat, nat)>)
    requires TableDone(g, lambda, first, states, issued)
    ensures Constructed(g, lambda, first, states)
  {
    hide StateOk, Entered, StateBuilt, ShiftsOk, BackExact, BackLinksExact;
    var a := Abstract(states);
    forall s | 0 <= s < |a| ensures StateOk(g, a, s) {
      DoneState(g, lambda, first, states, issued, s);
    }
    forall k | 0 < k < |a| ensures Entered(a, k) {
      DoneEntered(g, lambda, first, states, issued, k);
    }
    forall k | 0 <= k < |states|
      ensures DistinctSymbols(states[k].ap) && forall a :: a in states[k].ap ==> a.typ == SHIFT
    {
      DoneShifts(g, lambda, first, states, issued, k);
    }
    DoneBackLinks(g, lambda, first, states, issued);
  }

  lemma DoneBackLinks(g: Grammar, lambda: set<nat>, first: seq<set<nat>>, states: seq<State>, issued: set<(nat, nat)>)
    requires TableDone(g, lambda, first, states, issued)
    ensures BackLinksExact(g, states)
  {
    forall k, it, ref | 0 <= k < |states| && it in states[k].bplp
      ensures ref in states[k].bplp[it] <==>
              && ref.state < |states| && ref.item in states[ref.state].cfp && CanShift(g, ref.item)
              && Advance(ref.item) == it && Action(Next(g, ref.item), SHIFT, k) in states[ref.state].ap
    {
      assert BackExact(g, states, issued, k);
      if ref.state < |states| && ref.item in states[ref.state].cfp && CanShift(g, ref.item) {
        var x := Next(g, ref.item);
        assert ShiftsOk(g, states, issued, ref.state) && Finished(g, states[ref.state]);
        var a :| a in states[ref.state].ap && a.sp == x;
        if Elems(states[a.arg].bp) == Elems(states[k].bp) {
          assert Distinct(states);
          assert a.arg == k;
        }
      }
    }
  }

  /** The start symbol's rules, as basis configurations expecting `$`. */
  method StartBasis(g: Grammar) returns (basis: seq<Item>)
    ensures NoDup(basis) && Elems(basis) == StartItems(g)
  {
    basis := [];
    for r := |g.rules| downto 0
      invariant NoDup(basis)
      invariant forall it :: it in basis <==> it.dot == 0 && r <= it.rule < |g.rules| && g.rules[it.rule].lhs == g.start
    {
      if g.rules[r].lhs == g.start {
        assert Item(r, 0) !in basis;
        basis := basis + [Item(r, 0)];
      }
    }
  }

  method FindStates(g: Grammar, lambda: set<nat>, first: seq<set<nat>>) returns (states: seq<State>)
    requires g.WellFormed() && FamilyOk(g, first)
    ensures Constructed(g, lambda, first, states)
  {
    var basis := StartBasis(g);
    assert forall it :: it in basis ==> it in Elems(basis);
    var table := new StateTable(g, lambda, first);
    var k := table.GetState(basis, OwnBase(0, Elems(basis)), map[], None);
    states := table.states;
    assert TableDone(g, lambda, first, states, table.issued);
    DoneConstructed(g, lambda, first, states, table.issued);
  }
}
