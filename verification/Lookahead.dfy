/** `FindLinks`, and the proof that propagating along its links computes the
    lookahead sets of the automaton. */
module Lookahead {
  import opened Grammars
  import opened FirstSets
  import opened Automata
  import opened Sorting
  import opened Closures
  import opened ActionLists
  import opened States
  import opened FollowSets

  /** All configurations of all states. */
  function Refs(states: seq<State>): set<ConfigRef> {
    set s, it | 0 <= s < |states| && it in states[s].cfp :: ConfigRef(s, it)
  }

  ghost predicate RecordsOk(states: seq<State>) {
    && (forall s :: 0 <= s < |states| ==>
          && states[s].fplp.Keys == states[s].bplp.Keys == states[s].fws.Keys == Elems(states[s].cfp)
          && (forall it, j :: it in states[s].fplp && j in states[s].fplp[it] ==> j in states[s].cfp))
    && (forall s, it, ref :: 0 <= s < |states| && it in states[s].bplp && ref in states[s].bplp[it] ==>
      ref in Refs(states))
  }

  /** A link inside a state, made by the closure. */
  predicate LocalLink(states: seq<State>, n: ConfigRef, m: ConfigRef) {
    n.state == m.state < |states| && n.item in states[n.state].fplp && m.item in states[n.state].fplp[n.item]
  }

  /** A link from a configuration to the one it was shifted to. */
  predicate ShiftLink(states: seq<State>, n: ConfigRef, m: ConfigRef) {
    m.state < |states| && m.item in states[m.state].bplp && n in states[m.state].bplp[m.item]
  }

  // ---------------------------------------------------------------------------
  // FindLinks

  method ListRefs(states: seq<State>) returns (order: seq<ConfigRef>)
    ensures forall n :: n in order <==> n in Refs(states)
  {
    order := [];
    for s := 0 to |states|
      invariant forall n :: n in order <==> n in Refs(states) && n.state < s
    {
      ghost var before := order;
      for i := 0 to |states[s].cfp|
        invariant forall n :: n in order <==> n in before || (n.state == s && n.item in states[s].cfp[..i])
      {
        order := order + [ConfigRef(s, states[s].cfp[i])];
      }
      assert states[s].cfp[..|states[s].cfp|] == states[s].cfp;
    }
  }

  /** `Plink_add` of `m` to every configuration it has a back link to. */
  method TurnAround(fplp: map<ConfigRef, seq<ConfigRef>>, m: ConfigRef, back: seq<ConfigRef>)
    returns (fplp': map<ConfigRef, seq<ConfigRef>>)
    requires forall n :: n in back ==> n in fplp
    ensures fplp'.Keys == fplp.Keys
    ensures forall n, k :: n in fplp ==> (k in fplp'[n] <==> k in fplp[n] || (k == m && n in back))
  {
    fplp' := fplp;
    for i := 0 to |back|
      invariant fplp'.Keys == fplp.Keys
      invariant forall n, k :: n in fplp ==> (k in fplp'[n] <==> k in fplp[n] || (k == m && n in back[..i]))
    {
      var other := back[i];
      assert other in back;
      assert back[..i + 1] == back[..i] + [other];
      fplp' := fplp'[other := [m] + fplp'[other]];
    }
    assert back[..|back|] == back;
  }

  /** Seq of references to members of one state. */
  function InState(s: nat, its: seq<Item>): seq<ConfigRef> {
    seq(|its|, i requires 0 <= i < |its| => ConfigRef(s, its[i]))
  }

  function LocalLinks(states: seq<State>): map<ConfigRef, seq<ConfigRef>>
    requires RecordsOk(states)
  {
    map n | n in Refs(states) ::
      assert n.item in Elems(states[n.state].cfp); InState(n.state, states[n.state].fplp[n.item])
  }

  lemma LocalLinksExact(states: seq<State>)
    requires RecordsOk(states)
    ensures LocalLinks(states).Keys == Refs(states)
    ensures forall n, m :: n in LocalLinks(states) ==> (m in LocalLinks(states)[n] <==> LocalLink(states, n, m))
  {
    forall n, m | n in LocalLinks(states) ensures m in LocalLinks(states)[n] <==> LocalLink(states, n, m) {
      var its := states[n.state].fplp[n.item];
      if LocalLink(states, n, m) {
        var i :| 0 <= i < |its| && its[i] == m.item;
        assert InState(n.state, its)[i] == m;
      }
    }
  }

  lemma RefRecord(states: seq<State>, m: ConfigRef)
    requires RecordsOk(states) && m in Refs(states)
    ensures m.state < |states| && m.item in states[m.state].bplp
    ensures forall n :: n in states[m.state].bplp[m.item] ==> n in Refs(states)
  {
    assert m.item in Elems(states[m.state].cfp);
  }

  lemma LinksStayInside(states: seq<State>, fplp: map<ConfigRef, seq<ConfigRef>>)
    requires RecordsOk(states) && fplp.Keys == Refs(states)
    requires forall n, m :: n in fplp ==> (m in fplp[n] <==> LocalLink(states, n, m) || ShiftLink(states, n, m))
    ensures LinksInside(fplp)
  {
    forall n, m | n in fplp && m in fplp[n] ensures m in Refs(states) {
      if ShiftLink(states, n, m) {
        assert m.item in Elems(states[m.state].cfp);
      }
    }
  }

  method FindLinks(states: seq<State>, order: seq<ConfigRef>) returns (fplp: map<ConfigRef, seq<ConfigRef>>)
    requires RecordsOk(states) && forall n :: n in order <==> n in Refs(states)
    ensures fplp.Keys == Refs(states) && LinksInside(fplp)
    ensures forall n, m :: n in fplp ==> (m in fplp[n] <==> LocalLink(states, n, m) || ShiftLink(states, n, m))
  {
    fplp := LocalLinks(states);
    LocalLinksExact(states);
    assert order[..0] == [];
    hide RecordsOk, Refs, LocalLink;
    for i := 0 to |order|
      invariant fplp.Keys == Refs(states)
      invariant forall n, m :: n in fplp ==>
                  (m in fplp[n] <==> LocalLink(states, n, m) || (m in order[..i] && ShiftLink(states, n, m)))
    {
      var m := order[i];
      assert m in order;
      RefRecord(states, m);
      fplp := TurnAround(fplp, m, states[m.state].bplp[m.item]);
      assert order[..i + 1] == order[..i] + [m];
    }
    assert order[..|order|] == order;
    LinksStayInside(states, fplp);
  }

  /** The lookahead tokens configurations start with. */
  function OwnTokens(states: seq<State>): map<ConfigRef, set<nat>>
    requires RecordsOk(states)
  {
    map n | n in Refs(states) :: assert n.item in Elems(states[n.state].cfp); states[n.state].fws[n.item]
  }

  /** Per-state view of a family of sets over configurations. */
  function ByState(states: seq<State>, fws: map<ConfigRef, set<nat>>): Lookaheads
    requires fws.Keys == Refs(states)
  {
    seq(|states|, s requires 0 <= s < |states| => map it | it in Elems(states[s].cfp) :: fws[ConfigRef(s, it)])
  }

  // ---------------------------------------------------------------------------
  // The links are the automaton's

  lemma BuiltAt(g: Grammar, lambda: set<nat>, first: seq<set<nat>>, states: seq<State>, s: nat)
    requires Constructed(g, lambda, first, states) && s < |states|
    ensures StateBuilt(g, lambda, first, states[s], s)
    ensures DistinctSymbols(states[s].ap)
    ensures StateOk(g, Abstract(states), s)
  {
  }

  lemma RecordAt(g: Grammar, lambda: set<nat>, first: seq<set<nat>>, st: State, k: nat)
    requires StateBuilt(g, lambda, first, st, k)
    ensures st.fplp.Keys == st.bplp.Keys == st.fws.Keys == Elems(st.cfp)
    ensures forall it, j :: it in st.fplp && j in st.fplp[it] ==> j in st.cfp
  {
    forall it, j | it in st.fplp && j in st.fplp[it] ensures j in st.cfp {
      assert (it, j.rule) in AllCalls(g, Elems(st.cfp));
      assert j == Item(j.rule, 0);
      assert j in Elems(st.cfp);
    }
  }

  lemma ConstructedRecords(g: Grammar, lambda: set<nat>, first: seq<set<nat>>, states: seq<State>)
    requires Constructed(g, lambda, first, states)
    ensures RecordsOk(states)
  {
    hide StateBuilt, IsCanonical;
    forall s | 0 <= s < |states|
      ensures states[s].fplp.Keys == states[s].bplp.Keys == states[s].fws.Keys == Elems(states[s].cfp)
      ensures forall it, j :: it in states[s].fplp && j in states[s].fplp[it] ==> j in states[s].cfp
    {
      BuiltAt(g, lambda, first, states, s);
      RecordAt(g, lambda, first, states[s], s);
    }
    forall s, it, ref | 0 <= s < |states| && it in states[s].bplp && ref in states[s].bplp[it]
      ensures ref in Refs(states)
    {
      assert ref.item in states[ref.state].cfp;
    }
  }

  lemma LocalLinkExact(g: Grammar, lambda: set<nat>, first: seq<set<nat>>, states: seq<State>, n: ConfigRef,
                       m: ConfigRef)
    requires Constructed(g, lambda, first, states) && n in Refs(states)
    ensures LocalLink(states, n, m) <==>
            m.state == n.state && m.item.dot == 0 && Calls(g, n.item, m.item.rule) && Passes(g, lambda, n.item)
  {
    hide Constructed, StateOk, SeedsExact, IsClosure, Passes;
    BuiltAt(g, lambda, first, states, n.state);
    var st := states[n.state];
    assert n.item in Elems(st.cfp) && n.item in st.fplp;
    assert m.item in st.fplp[n.item] <==>
      m.item.dot == 0 && (n.item, m.item.rule) in AllCalls(g, Elems(st.cfp)) && Passes(g, lambda, n.item);
  }

  lemma ShiftLinkExact(g: Grammar, lambda: set<nat>, first: seq<set<nat>>, states: seq<State>, n: ConfigRef,
                       m: ConfigRef)
    requires Constructed(g, lambda, first, states) && n in Refs(states)
    ensures ShiftLink(states, n, m) <==>
            && CanShift(g, n.item) && m.item == Advance(n.item)
            && Next(g, n.item) in TransOf(states[n.state].ap) && TransOf(states[n.state].ap)[Next(g, n.item)] == m.state
  {
    BackLinkAt(g, lambda, first, states, n, m);
    hide Constructed;
    BuiltAt(g, lambda, first, states, n.state);
    if CanShift(g, n.item) {
      TransOfExact(states[n.state].ap, Next(g, n.item), m.state);
      if m.item == Advance(n.item) && Action(Next(g, n.item), SHIFT, m.state) in states[n.state].ap {
        ShiftTarget(g, lambda, first, states, n);
      }
    }
  }

  lemma BackLinkAt(g: Grammar, lambda: set<nat>, first: seq<set<nat>>, states: seq<State>, n: ConfigRef, m: ConfigRef)
    requires Constructed(g, lambda, first, states) && n in Refs(states)
    ensures m.state < |states| && m.item in states[m.state].bplp ==>
      (n in states[m.state].bplp[m.item] <==>
       CanShift(g, n.item) && Advance(n.item) == m.item &&
         Action(Next(g, n.item), SHIFT, m.state) in states[n.state].ap)
  {
    hide StateBuilt, IsCanonical;
  }

  /** What is shifted out of a state is recorded where it goes. */
  lemma ShiftTarget(g: Grammar, lambda: set<nat>, first: seq<set<nat>>, states: seq<State>, n: ConfigRef)
    requires Constructed(g, lambda, first, states) && n in Refs(states) && CanShift(g, n.item)
    ensures var trans := TransOf(states[n.state].ap);
            && Next(g, n.item) in trans && trans[Next(g, n.item)] < |states|
            && Advance(n.item) in states[trans[Next(g, n.item)]].bplp
  {
    hide Constructed, SeedsExact, LinksExact;
    BuiltAt(g, lambda, first, states, n.state);
    var a := Abstract(states);
    assert n.item in a[n.state].items;
    var k := a[n.state].trans[Next(g, n.item)];
    assert Advance(n.item) in GotoBasis(g, a[n.state].items, Next(g, n.item));
    BuiltAt(g, lambda, first, states, k);
  }

  lemma SeedAt(g: Grammar, lambda: set<nat>, first: seq<set<nat>>, items: set<Item>, basis: set<Item>, k: nat,
               fws: map<Item, set<nat>>, it: Item, t: nat)
    requires SeedsExact(g, lambda, first, AllCalls(g, items), OwnBase(k, basis), fws) && it in fws
    ensures t in fws[it] <==>
            || (k == 0 && it in basis && t == 0)
            || (it.dot == 0 && exists j :: j in items && Calls(g, j, it.rule) && SeedsFrom(g, lambda, first, j, t))
  {
    hide SeedsFrom;
    var calls, base := AllCalls(g, items), OwnBase(k, basis);
    assert t in fws[it] <==> Seeded(g, lambda, first, calls, base, it, t);
    if it.dot == 0 && exists j :: j in items && Calls(g, j, it.rule) && SeedsFrom(g, lambda, first, j, t) {
      var j :| j in items && Calls(g, j, it.rule) && SeedsFrom(g, lambda, first, j, t);
      assert (j, it.rule) in calls;
    }
  }

  lemma SeedExact(g: Grammar, lambda: set<nat>, first: seq<set<nat>>, states: seq<State>, n: ConfigRef, t: nat)
    requires Constructed(g, lambda, first, states) && n in Refs(states)
    ensures n.item in states[n.state].fws
    ensures t in states[n.state].fws[n.item] <==>
            || (n.state == 0 && n.item in StartItems(g) && t == 0)
            || (n.item.dot == 0 && exists j ::
              j in states[n.state].cfp && Calls(g, j, n.item.rule) && SeedsFrom(g, lambda, first, j, t))
  {
    var st := states[n.state];
    assert Abstract(states)[0].basis == StartItems(g);
    hide Constructed, StateOk, SeedsExact, LinksExact, IsClosure, SeedsFrom, AllCalls, OwnBase, StartItems;
    BuiltAt(g, lambda, first, states, n.state);
    assert n.item in Elems(st.cfp);
    SeedAt(g, lambda, first, Elems(st.cfp), Elems(st.bp), n.state, st.fws, n.item, t);
    assert forall j :: j in st.cfp <==> j in Elems(st.cfp);
  }

  lemma SeedsBelow(g: Grammar, lambda: set<nat>, first: seq<set<nat>>, states: seq<State>)
    requires g.WellFormed() && FamilyOk(g, first) && Constructed(g, lambda, first, states) && RecordsOk(states)
    ensures TokensBelow(OwnTokens(states), g.nterminal)
  {
    forall n, t | n in OwnTokens(states) && t in OwnTokens(states)[n] ensures t < g.nterminal {
      SeedExact(g, lambda, first, states, n, t);
      if t != 0 {
        var j :| j in states[n.state].cfp && Calls(g, j, n.item.rule) && SeedsFrom(g, lambda, first, j, t);
        ScanWithin(g, lambda, first, Rest(g, j), t);
      }
    }
  }

  ghost predicate LinkMap(states: seq<State>, fplp: map<ConfigRef, seq<ConfigRef>>) {
    && fplp.Keys == Refs(states) && LinksInside(fplp)
    && forall n, m :: n in fplp ==> (m in fplp[n] <==> LocalLink(states, n, m) || ShiftLink(states, n, m))
  }

  /** A family closed under the links is closed in the automaton's sense. */
  lemma ClosedByState(g: Grammar, lambda: set<nat>, first: seq<set<nat>>, states: seq<State>,
                      fplp: map<ConfigRef, seq<ConfigRef>>, fws: map<ConfigRef, set<nat>>)
    requires Constructed(g, lambda, first, states) && RecordsOk(states) && LinkMap(states, fplp)
    requires FamilyClosed(fplp, OwnTokens(states), fws)
    ensures LookClosed(g, lambda, first, Abstract(states), ByState(states, fws))
  {
    var a, look := Abstract(states), ByState(states, fws);
    forall it | it in StartItems(g) ensures 0 in LookAt(look, 0, it) {
      assert StateOk(g, a, 0);
      assert it in a[0].items;
      SeedExact(g, lambda, first, states, ConfigRef(0, it), 0);
    }
    forall s, it, r | 0 <= s < |a| && it in a[s].items && Calls(g, it, r)
      ensures LookLocal(g, lambda, first, look, s, it, r)
    {
      ClosedLocal(g, lambda, first, states, fplp, fws, s, it, r);
    }
    forall s, it | 0 <= s < |a| && it in a[s].items && CanShift(g, it) && Next(g, it) in a[s].trans
      ensures LookAt(look, s, it) <= LookAt(look, a[s].trans[Next(g, it)], Advance(it))
    {
      ClosedShift(g, lambda, first, states, fplp, fws, s, it);
    }
  }

  lemma CalledIsMember(g: Grammar, lambda: set<nat>, first: seq<set<nat>>, states: seq<State>, s: nat, it: Item, r: nat)
    requires Constructed(g, lambda, first, states) && s < |states| && it in states[s].cfp && Calls(g, it, r)
    ensures Item(r, 0) in states[s].cfp
  {
    BuiltAt(g, lambda, first, states, s);
    assert it in Elems(states[s].cfp);
    assert Item(r, 0) in Elems(states[s].cfp);
  }

  lemma ClosedLocal(g: Grammar, lambda: set<nat>, first: seq<set<nat>>, states: seq<State>,
                    fplp: map<ConfigRef, seq<ConfigRef>>, fws: map<ConfigRef, set<nat>>, s: nat, it: Item, r: nat)
    requires Constructed(g, lambda, first, states) && RecordsOk(states) && LinkMap(states, fplp)
    requires FamilyClosed(fplp, OwnTokens(states), fws)
    requires s < |states| && it in states[s].cfp && Calls(g, it, r)
    ensures LookLocal(g, lambda, first, ByState(states, fws), s, it, r)
  {
    hide Constructed, RecordsOk;
    var a := Abstract(states);
    CalledIsMember(g, lambda, first, states, s, it, r);
    var n, m := ConfigRef(s, it), ConfigRef(s, Item(r, 0));
    assert n in Refs(states) && m in Refs(states);
    forall t | t in FirstOfSeq(g, lambda, first, Rest(g, it)) ensures t in fws[m] {
      SeedExact(g, lambda, first, states, m, t);
    }
    LocalLinkExact(g, lambda, first, states, n, m);
    assert Propagated(fplp, fws, n);
  }

  lemma ClosedShift(g: Grammar, lambda: set<nat>, first: seq<set<nat>>, states: seq<State>,
                    fplp: map<ConfigRef, seq<ConfigRef>>, fws: map<ConfigRef, set<nat>>, s: nat, it: Item)
    requires Constructed(g, lambda, first, states) && RecordsOk(states) && LinkMap(states, fplp)
    requires FamilyClosed(fplp, OwnTokens(states), fws)
    requires s < |states| && it in states[s].cfp && CanShift(g, it) && Next(g, it) in Abstract(states)[s].trans
    ensures var look := ByState(states, fws);
            LookAt(look, s, it) <= LookAt(look, Abstract(states)[s].trans[Next(g, it)], Advance(it))
  {
    hide Constructed, RecordsOk;
    var n, m := ConfigRef(s, it), ConfigRef(Abstract(states)[s].trans[Next(g, it)], Advance(it));
    assert n in Refs(states);
    ShiftLinkExact(g, lambda, first, states, n, m);
    assert m in fplp[n] && m in Refs(states);
    assert Propagated(fplp, fws, n);
  }

  /** Lookahead sets closed in the automaton's sense, read as a family. */
  function Flat(states: seq<State>, look: Lookaheads): map<ConfigRef, set<nat>> {
    map n | n in Refs(states) :: LookAt(look, n.state, n.item)
  }

  lemma FlatSeeds(g: Grammar, lambda: set<nat>, first: seq<set<nat>>, states: seq<State>, look: Lookaheads,
                  n: ConfigRef)
    requires Constructed(g, lambda, first, states) && RecordsOk(states)
    requires LookClosed(g, lambda, first, Abstract(states), look) && n in Refs(states)
    ensures OwnTokens(states)[n] <= Flat(states, look)[n]
  {
    var a := Abstract(states);
    forall t | t in OwnTokens(states)[n] ensures t in LookAt(look, n.state, n.item) {
      SeedExact(g, lambda, first, states, n, t);
      if !(n.state == 0 && n.item in StartItems(g) && t == 0) {
        var j :| j in states[n.state].cfp && Calls(g, j, n.item.rule) && SeedsFrom(g, lambda, first, j, t);
        assert j in a[n.state].items;
        assert LookLocal(g, lambda, first, look, n.state, j, n.item.rule);
      }
    }
  }

  lemma FlatLinks(g: Grammar, lambda: set<nat>, first: seq<set<nat>>, states: seq<State>,
                  fplp: map<ConfigRef, seq<ConfigRef>>, look: Lookaheads, n: ConfigRef, m: ConfigRef)
    requires Constructed(g, lambda, first, states) && LinkMap(states, fplp)
    requires LookClosed(g, lambda, first, Abstract(states), look) && n in fplp && m in fplp[n]
    ensures LookAt(look, n.state, n.item) <= LookAt(look, m.state, m.item)
  {
    var a := Abstract(states);
    assert n.item in a[n.state].items;
    LocalLinkExact(g, lambda, first, states, n, m);
    ShiftLinkExact(g, lambda, first, states, n, m);
    if LocalLink(states, n, m) {
      assert LookLocal(g, lambda, first, look, n.state, n.item, m.item.rule);
      assert m.item == Item(m.item.rule, 0);
    }
  }

  lemma FlatClosed(g: Grammar, lambda: set<nat>, first: seq<set<nat>>, states: seq<State>,
                   fplp: map<ConfigRef, seq<ConfigRef>>, look: Lookaheads)
    requires Constructed(g, lambda, first, states) && RecordsOk(states) && LinkMap(states, fplp)
    requires LookClosed(g, lambda, first, Abstract(states), look)
    ensures FamilyClosed(fplp, OwnTokens(states), Flat(states, look))
  {
    hide Constructed, RecordsOk, LookClosed, LocalLink, ShiftLink, LookAt;
    var fam := Flat(states, look);
    forall n | n in fam ensures OwnTokens(states)[n] <= fam[n] {
      FlatSeeds(g, lambda, first, states, look, n);
    }
    forall n, m | n in fplp && m in fplp[n] ensures fam[n] <= fam[m] {
      FlatLinks(g, lambda, first, states, fplp, look, n, m);
    }
  }

  /** The sets that `FindFollowSets` leaves behind are the lookahead sets. */
  lemma LeastIsLook(g: Grammar, lambda: set<nat>, first: seq<set<nat>>, states: seq<State>,
                    fplp: map<ConfigRef, seq<ConfigRef>>, fws: map<ConfigRef, set<nat>>)
    requires Constructed(g, lambda, first, states) && RecordsOk(states) && LinkMap(states, fplp)
    requires IsLeast(fplp, OwnTokens(states), fws)
    ensures IsLook(g, lambda, first, Abstract(states), ByState(states, fws))
  {
    assert fws.Keys == Refs(states);
    hide Constructed, RecordsOk, LookClosed, LocalLink, ShiftLink, FamilyClosed, LookBelow, FamilyBelow, LookAt, Refs;
    var a, look := Abstract(states), ByState(states, fws);
    ClosedByState(g, lambda, first, states, fplp, fws);
    forall l | LookClosed(g, lambda, first, a, l) ensures LookBelow(a, look, l) {
      FlatClosed(g, lambda, first, states, fplp, l);
      assert FamilyBelow(fws, Flat(states, l));
      BelowByState(states, fws, l);
    }
  }

  lemma BelowByState(states: seq<State>, fws: map<ConfigRef, set<nat>>, l: Lookaheads)
    requires fws.Keys == Refs(states) && FamilyBelow(fws, Flat(states, l))
    ensures LookBelow(Abstract(states), ByState(states, fws), l)
  {
    var a, look := Abstract(states), ByState(states, fws);
    forall s, it | 0 <= s < |a| && it in a[s].items ensures LookAt(look, s, it) <= LookAt(l, s, it) {
      assert ConfigRef(s, it) in fws && fws[ConfigRef(s, it)] <= Flat(states, l)[ConfigRef(s, it)];
    }
  }

  /** `FindLinks` and `FindFollowSets` together. */
  method FindLookaheads(g: Grammar, lambda: set<nat>, first: seq<set<nat>>, states: seq<State>)
    returns (look: Lookaheads)
    requires g.WellFormed() && FamilyOk(g, first) && Constructed(g, lambda, first, states)
    ensures IsLook(g, lambda, first, Abstract(states), look)
    ensures forall s, it :: 0 <= s < |states| && it in states[s].cfp ==>
                it in look[s] && forall t :: t in look[s][it] ==> t < g.nterminal
  {
    ConstructedRecords(g, lambda, first, states);
    var order := ListRefs(states);
    var fplp := FindLinks(states, order);
    SeedsBelow(g, lambda, first, states);
    var fws := FindFollowSets(order, OwnTokens(states), fplp, g.nterminal);
    look := ByState(states, fws);
    LeastIsLook(g, lambda, first, states, fplp, fws);
    forall s, it | 0 <= s < |states| && it in states[s].cfp
      ensures it in look[s] && forall t :: t in look[s][it] ==> t < g.nterminal
    {
      assert ConfigRef(s, it) in Refs(states);
    }
  }
}
