/** The whole of LEMON from a grammar to the tables of its parser, and what that
    parser is then known to do. */
module Generator {
  import opened Options
  import opened Grammars
  import opened FirstSets
  import opened Automata
  import opened Sorting
  import opened ActionLists
  import opened States
  import opened Lookahead
  import opened Actions
  import opened Champions
  import opened Compress
  import opened ActTab
  import opened TableBuilder
  import opened Driver
  import opened Soundness
  import opened Completeness
  import opened Prefix

  // ---------------------------------------------------------------------------
  // A state's list of actions, compressed or not

  /** An action the list will answer with when nothing else is found. */
  ghost predicate DefaultOk(g: Grammar, a: Automaton, look: Lookaheads, s: nat, x: Action)
    requires s < |a|
  {
    && x.sp == g.NSymbol() && x.typ == REDUCE && x.arg < |g.rules| && !g.IsStartRule(x.arg)
    && exists b :: Reduces(g, a, look, s, CompleteItem(g, x.arg), b)
  }

  /** The candidate `y` is what the list answers for its symbol. */
  ghost predicate Answers(g: Grammar, ap: seq<Action>, y: Action) {
    || y in ap
    || (y.typ == REDUCE && Action(g.NSymbol(), REDUCE, y.arg) in ap && forall x :: x in ap && Live(x) ==> x.sp != y.sp)
  }

  ghost predicate FinalList(g: Grammar, a: Automaton, look: Lookaheads, s: nat, ap: seq<Action>)
    requires s < |a|
  {
    && LiveOnce(ap)
    && (forall x :: x in ap && Live(x) ==>
      if x.sp < g.NSymbol() then Candidate(g, a, look, s, x) else DefaultOk(g, a, look, s, x))
    && (forall c :: Candidate(g, a, look, s, c) ==> Answered(g, a, look, s, ap, c.sp))
    && (forall tok: nat :: ChampionAnswers(g, a, look, s, ap, tok))
  }

  /** What the list answers for a token is the champion of its candidates. */
  ghost predicate ChampionAnswers(g: Grammar, a: Automaton, look: Lookaheads, s: nat, ap: seq<Action>, tok: nat)
    requires s < |a|
  {
    g.WellFormed() && tok < g.nterminal && Champion(g, a, look, s, tok, |g.rules|).Some?
    ==> Answers(g, ap, Champion(g, a, look, s, tok, |g.rules|).value)
  }

  /** Some candidate for the symbol is what the list answers. */
  ghost predicate Answered(g: Grammar, a: Automaton, look: Lookaheads, s: nat, ap: seq<Action>, x: nat)
    requires s < |a|
  {
    exists y :: Candidate(g, a, look, s, y) && y.sp == x && Answers(g, ap, y)
  }

  predicate HasLive(ap: seq<Action>, x: nat) {
    exists y :: y in ap && Live(y) && y.sp == x
  }

  /** What resolution leaves in a state's list. */
  lemma ResolvedGives(g: Grammar, a: Automaton, look: Lookaheads, s: nat, ap: seq<Action>)
    requires g.WellFormed() && s < |a| && ResolvedFrom(g, a, look, s, ap)
    ensures LiveOnce(ap) && SymbolsBelow(ap, g.NSymbol())
    ensures forall x :: x in ap && Live(x) ==> Candidate(g, a, look, s, x)
    ensures forall c :: Candidate(g, a, look, s, c) ==> HasLive(ap, c.sp)
  {
    var o :| CandidateList(g, a, look, s, o) && ListsMatch(o, ap) && ResolvedBelow(g, o, ap, |o|);
    ResolvedLiveOnce(g, o, ap);
    hide Candidate, LiveOnce, ListOk, ResolvedBelow;
    forall x | x in ap ensures x.sp < g.NSymbol() && (Live(x) ==> Candidate(g, a, look, s, x)) {
      ResolvedMember(g, o, ap, x);
    }
    forall c | Candidate(g, a, look, s, c) ensures HasLive(ap, c.sp) {
      ResolvedHasLive(g, o, ap, c);
    }
  }

  lemma ResolvedMember(g: Grammar, o: seq<Action>, ap: seq<Action>, x: Action)
    requires ListOk(g, o) && ListsMatch(o, ap) && x in ap
    ensures x.sp < g.NSymbol() && (Live(x) ==> x in o)
  {
    var i :| 0 <= i < |ap| && ap[i] == x;
    MatchAt(g, o, ap, i);
    assert DeadOrSame(o[i], ap[i]) && o[i] in o;
  }

  lemma ResolvedHasLive(g: Grammar, o: seq<Action>, ap: seq<Action>, c: Action)
    requires g.WellFormed() && ListOk(g, o) && ListsMatch(o, ap) && ResolvedBelow(g, o, ap, |o|) && c in o
    ensures HasLive(ap, c.sp)
  {
    var i :| 0 <= i < |o| && o[i] == c;
    ExactlyOneLive(g, o, ap, i);
    var w := Winner(g, o, GroupStart(o, i), GroupEnd(o, i));
    assert ap[w] in ap && o[w] in o;
  }

  /** The champion of a token is alive. */
  lemma ChampionLives(g: Grammar, a: Automaton, look: Lookaheads, s: nat, ap: seq<Action>, tok: nat)
    requires g.WellFormed() && s < |a| && ResolvedFrom(g, a, look, s, ap) && tok < g.nterminal
    requires Champion(g, a, look, s, tok, |g.rules|).Some?
    ensures var c := Champion(g, a, look, s, tok, |g.rules|).value; c in ap && Live(c)
  {
    hide ResolvedFrom, LiveOnce, SymbolsBelow, Champion, Reduces;
    ChampionExists(g, a, look, s, tok, |g.rules|);
    ResolvedGives(g, a, look, s, ap);
    assert HasLive(ap, tok) by {
      if tok in a[s].trans {
        assert Candidate(g, a, look, s, Action(tok, SHIFT, a[s].trans[tok]));
      } else {
        var r :| 0 <= r < |g.rules| && Reduces(g, a, look, s, CompleteItem(g, r), tok);
        assert Candidate(g, a, look, s, Action(tok, REDUCE, r));
      }
    }
    var y :| y in ap && Live(y) && y.sp == tok;
    LiveIsChampion(g, a, look, s, ap, y);
  }

  lemma PlainFinal(g: Grammar, a: Automaton, look: Lookaheads, s: nat, ap: seq<Action>)
    requires g.WellFormed() && s < |a| && ResolvedFrom(g, a, look, s, ap)
    ensures FinalList(g, a, look, s, ap)
  {
    hide ResolvedFrom, Candidate, LiveOnce, DefaultOk, Live, Champion;
    ResolvedGives(g, a, look, s, ap);
    forall c | Candidate(g, a, look, s, c) ensures Answered(g, a, look, s, ap, c.sp) {
      assert HasLive(ap, c.sp);
      var y :| y in ap && Live(y) && y.sp == c.sp;
      assert Answers(g, ap, y);
    }
    forall tok: nat ensures ChampionAnswers(g, a, look, s, ap, tok) {
      if tok < g.nterminal && Champion(g, a, look, s, tok, |g.rules|).Some? {
        ChampionLives(g, a, look, s, ap, tok);
      }
    }
  }

  /** Default reductions preserve meaning: a live action is still what the list
      answers, by name or by default. */
  lemma CompressedFinal(g: Grammar, a: Automaton, look: Lookaheads, s: nat, ap: seq<Action>, ap': seq<Action>)
    requires g.WellFormed() && s < |a| && ResolvedFrom(g, a, look, s, ap) && Compressed(g, ap, ap')
    ensures FinalList(g, a, look, s, ap')
  {
    hide ResolvedFrom, Candidate, LiveOnce, DefaultOk, Live, IsBest, Answers, SymbolsBelow, CompressedBy, Champion;
    var rbest :| IsBest(g, ap, rbest) && CompressedBy(g, ap, ap', rbest);
    if rbest.None? {
      PlainFinal(g, a, look, s, ap);
      NotCompressed(g, ap, ap');
    } else {
      ResolvedGives(g, a, look, s, ap);
      DefaultFromBest(g, a, look, s, ap, ap', rbest.value);
      forall c | Candidate(g, a, look, s, c) ensures Answered(g, a, look, s, ap', c.sp) {
        assert HasLive(ap, c.sp);
        var y :| y in ap && Live(y) && y.sp == c.sp;
        StillAnswers(g, ap, ap', rbest.value, y);
      }
      forall tok: nat ensures ChampionAnswers(g, a, look, s, ap', tok) {
        if tok < g.nterminal && Champion(g, a, look, s, tok, |g.rules|).Some? {
          ChampionLives(g, a, look, s, ap, tok);
          StillAnswers(g, ap, ap', rbest.value, Champion(g, a, look, s, tok, |g.rules|).value);
        }
      }
    }
  }

  lemma NotCompressed(g: Grammar, ap: seq<Action>, ap': seq<Action>)
    requires CompressedBy(g, ap, ap', None)
    ensures ap' == ap
  {
  }

  lemma DefaultFromBest(g: Grammar, a: Automaton, look: Lookaheads, s: nat, ap: seq<Action>, ap': seq<Action>, r: nat)
    requires s < |a| && SymbolsBelow(ap, g.NSymbol())
    requires (forall x :: x in ap && Live(x) ==> Candidate(g, a, look, s, x))
    requires IsBest(g, ap, Some(r)) && CompressedBy(g, ap, ap', Some(r))
    ensures forall x :: x in ap' && Live(x) ==>
              if x.sp < g.NSymbol() then Candidate(g, a, look, s, x) else DefaultOk(g, a, look, s, x)
  {
    CountPositive(ap, r);
    var i :| 0 <= i < |ap| && IsReduce(ap[i], r);
    assert ap[i] in ap && Candidate(g, a, look, s, ap[i]);
    assert Reduces(g, a, look, s, CompleteItem(g, r), ap[i].sp);
  }

  lemma StillAnswers(g: Grammar, ap: seq<Action>, ap': seq<Action>, r: nat, y: Action)
    requires LiveOnce(ap) && SymbolsBelow(ap, g.NSymbol()) && CompressedBy(g, ap, ap', Some(r))
    requires y in ap && Live(y)
    ensures Answers(g, ap', y)
  {
    if IsReduce(y, r) {
      forall x | x in ap' && Live(x) ensures x.sp != y.sp {
        if x in ap {
          var i :| 0 <= i < |ap| && ap[i] == y;
          var j :| 0 <= j < |ap| && ap[j] == x;
          assert i < j || j < i || i == j;
        }
      }
    }
  }

  // ---------------------------------------------------------------------------
  // Renumbering

  function Renumbered(a: Automaton, order: seq<nat>, num: seq<nat>): Automaton
    requires IsRenumbering(order, num) && |order| == |a|
  {
    seq(|a|, i requires 0 <= i < |a| =>
      var st := a[order[i]];
      AState(st.basis, st.items, map x | x in st.trans :: if st.trans[x] < |num| then num[st.trans[x]] else 0))
  }

  function RenumberedLook(look: Lookaheads, order: seq<nat>): Lookaheads
    requires forall i :: 0 <= i < |order| ==> order[i] < |look|
  {
    seq(|order|, i requires 0 <= i < |order| => look[order[i]])
  }

  lemma RenumberedState(g: Grammar, a: Automaton, order: seq<nat>, num: seq<nat>, i: nat)
    requires IsRenumbering(order, num) && |order| == |a| && IsAutomaton(g, a) && i < |a|
    ensures StateOk(g, Renumbered(a, order, num), i)
  {
    var b, s := Renumbered(a, order, num), order[i];
    assert StateOk(g, a, s);
    forall x | x in b[i].trans
      ensures (exists it :: it in b[i].items && ShiftsOn(g, it, x)) && b[i].trans[x] < |b|
      ensures b[b[i].trans[x]].basis == GotoBasis(g, b[i].items, x)
    {
      var k := a[s].trans[x];
      assert order[num[k]] == k;
    }
  }

  lemma RenumberedAutomaton(g: Grammar, a: Automaton, order: seq<nat>, num: seq<nat>)
    requires IsRenumbering(order, num) && |order| == |a| && IsAutomaton(g, a)
    ensures IsAutomaton(g, Renumbered(a, order, num))
  {
    hide StateOk;
    forall i | 0 <= i < |a| ensures StateOk(g, Renumbered(a, order, num), i) {
      RenumberedState(g, a, order, num, i);
    }
  }

  lemma RenumberedLookClosed(g: Grammar, lambda: set<nat>, first: seq<set<nat>>, a: Automaton, look: Lookaheads,
                             order: seq<nat>, num: seq<nat>)
    requires IsRenumbering(order, num) && |order| == |a| && IsAutomaton(g, a) && LookClosed(g, lambda, first, a, look)
    ensures LookClosed(g, lambda, first, Renumbered(a, order, num), RenumberedLook(look, order))
  {
    var b, l := Renumbered(a, order, num), RenumberedLook(look, order);
    forall i: nat, it: Item | i < |a| ensures LookAt(l, i, it) == LookAt(look, order[i], it) {
    }
    forall i, it, r | 0 <= i < |b| && it in b[i].items && Calls(g, it, r)
      ensures LookLocal(g, lambda, first, l, i, it, r)
    {
      assert LookLocal(g, lambda, first, look, order[i], it, r);
    }
    forall i, it | 0 <= i < |b| && it in b[i].items && CanShift(g, it) && Next(g, it) in b[i].trans
      ensures LookAt(l, i, it) <= LookAt(l, b[i].trans[Next(g, it)], Advance(it))
    {
      var s := order[i];
      assert StateOk(g, a, s);
      var k := a[s].trans[Next(g, it)];
      assert order[num[k]] == k;
      assert LookAt(look, s, it) <= LookAt(look, k, Advance(it));
    }
  }

  /** Renumbering back gives the automaton and the sets one came from. */
  lemma RenumberedBack(g: Grammar, a: Automaton, order: seq<nat>, num: seq<nat>)
    requires IsRenumbering(order, num) && |order| == |a| && IsAutomaton(g, a)
    ensures IsRenumbering(num, order) && Renumbered(Renumbered(a, order, num), num, order) == a
  {
    var b := Renumbered(a, order, num);
    var c := Renumbered(b, num, order);
    forall s | 0 <= s < |a| ensures c[s] == a[s] {
      assert order[num[s]] == s && StateOk(g, a, s);
      assert forall x :: x in a[s].trans ==> c[s].trans[x] == a[s].trans[x];
      assert c[s].trans == a[s].trans;
    }
  }

  /** The least lookahead sets stay the least. */
  lemma RenumberedIsLook(g: Grammar, lambda: set<nat>, first: seq<set<nat>>, a: Automaton, look: Lookaheads,
                         order: seq<nat>, num: seq<nat>)
    requires IsRenumbering(order, num) && |order| == |a| && IsAutomaton(g, a) && IsLook(g, lambda, first, a, look)
    ensures IsLook(g, lambda, first, Renumbered(a, order, num), RenumberedLook(look, order))
  {
    var b, l := Renumbered(a, order, num), RenumberedLook(look, order);
    hide IsAutomaton, LookClosed, Renumbered;
    RenumberedLookClosed(g, lambda, first, a, look, order, num);
    RenumberedAutomaton(g, a, order, num);
    RenumberedBack(g, a, order, num);
    forall m | LookClosed(g, lambda, first, b, m) ensures LookBelow(b, l, m) {
      ClosedSizes(g, lambda, first, b, m);
      RenumberedLookClosed(g, lambda, first, b, m, num, order);
      BelowRenumbered(a, look, order, num, m);
    }
  }

  lemma ClosedSizes(g: Grammar, lambda: set<nat>, first: seq<set<nat>>, a: Automaton, look: Lookaheads)
    requires LookClosed(g, lambda, first, a, look)
    ensures |look| == |a|
  {
  }

  lemma BelowRenumbered(a: Automaton, look: Lookaheads, order: seq<nat>, num: seq<nat>, m: Lookaheads)
    requires IsRenumbering(order, num) && |order| == |a| == |look| == |m|
    requires LookBelow(a, look, RenumberedLook(m, num))
    ensures LookBelow(Renumbered(a, order, num), RenumberedLook(look, order), m)
  {
    var b, l := Renumbered(a, order, num), RenumberedLook(look, order);
    forall i, it | 0 <= i < |b| && it in b[i].items ensures LookAt(l, i, it) <= LookAt(m, i, it) {
      assert it in a[order[i]].items && num[order[i]] == i;
      assert LookAt(look, order[i], it) <= LookAt(RenumberedLook(m, num), order[i], it);
    }
  }

  lemma {:induction false} RenumberedWalk(g: Grammar, a: Automaton, order: seq<nat>, num: seq<nat>, s: nat,
                                          xs: seq<nat>)
    requires IsRenumbering(order, num) && |order| == |a| && IsAutomaton(g, a) && s < |a| && Walk(a, s, xs) < |a|
    ensures Walk(Renumbered(a, order, num), num[s], xs) == num[Walk(a, s, xs)]
    decreases |xs|
  {
    hide IsClosure;
    if xs != [] {
      assert order[num[s]] == s && StateOk(g, a, s);
      RenumberedWalk(g, a, order, num, a[s].trans[xs[0]], xs[1..]);
    }
  }

  /** Every state stays reachable. */
  lemma RenumberedReached(g: Grammar, a: Automaton, order: seq<nat>, num: seq<nat>)
    requires IsRenumbering(order, num) && |order| == |a| && IsCanonical(g, a)
    ensures AllReached(Renumbered(a, order, num))
  {
    hide StateOk, Walk;
    var b := Renumbered(a, order, num);
    forall i | 0 <= i < |b| ensures Reached(b, i) {
      CanonicalReached(g, a, order[i]);
      var xs :| Walk(a, 0, xs) == order[i];
      RenumberedWalk(g, a, order, num, 0, xs);
    }
  }

  // ---------------------------------------------------------------------------
  // From lists to tables

  lemma {:induction false} DefaultOfIs(g: Grammar, nstate: nat, ap: seq<Action>)
    ensures if exists d :: d in ap && Live(d) && d.sp >= g.NSymbol()
            then exists d :: d in ap && Live(d) && d.sp >= g.NSymbol()
                             && DefaultOf(g, nstate, ap) == ComputeAction(g, Identity(nstate), d)
            else DefaultOf(g, nstate, ap) == nstate + |g.rules|
  {
    if ap != [] {
      var x, front := ap[|ap| - 1], ap[..|ap| - 1];
      DefaultOfIs(g, nstate, front);
      assert ap == front + [x];
      if !(Live(x) && x.sp >= g.NSymbol()) && exists d :: d in ap && Live(d) && d.sp >= g.NSymbol() {
        var d :| d in ap && Live(d) && d.sp >= g.NSymbol();
        assert d in front;
      }
    }
  }

  /** What the tables answer for a token is the code of a live action of the
      state's list, or its default, or the error action. */
  lemma TokenAnswer(g: Grammar, num: seq<nat>, lists: seq<seq<Action>>, t: Tables, i: nat, tok: nat)
    requires g.WellFormed() && Decodes(g, num, lists, t) && i < |lists| == |num| && LiveOnce(lists[i])
    requires tok < g.nterminal
    ensures FindShiftAction(t, i, tok).Some?
    ensures forall x :: x in lists[i] && Live(x) && x.sp == tok ==>
                FindShiftAction(t, i, tok) == Some(ComputeAction(g, num, x))
    ensures !HasLive(lists[i], tok) ==> FindShiftAction(t, i, tok) == Some(DefaultOf(g, |lists|, lists[i]))
  {
    var ap := lists[i];
    assert t.dflt[i] == DefaultOf(g, |lists|, ap);
    forall x | x in ap && Live(x) && x.sp == tok ensures FindShiftAction(t, i, tok) == Some(ComputeAction(g, num, x)) {
      SetForAction(g, num, true, ap, x);
    }
    if !HasLive(ap, tok) {
      SetForNone(g, num, true, ap, tok);
    }
  }

  ghost predicate ListsFinal(g: Grammar, a: Automaton, look: Lookaheads, order: seq<nat>, lists: seq<seq<Action>>) {
    |lists| == |order| && forall i :: 0 <= i < |order| ==> order[i] < |a| && FinalList(g, a, look, order[i], lists[i])
  }

  lemma RenumberedReduces(g: Grammar, a: Automaton, look: Lookaheads, order: seq<nat>, num: seq<nat>, i: nat, it: Item,
                          tok: nat)
    requires IsRenumbering(order, num) && |order| == |a| == |look| && i < |order|
    ensures Reduces(g, Renumbered(a, order, num), RenumberedLook(look, order), i, it, tok) <==>
                Reduces(g, a, look, order[i], it, tok)
  {
  }

  ghost predicate TablesMatch(g: Grammar, a: Automaton, look: Lookaheads, order: seq<nat>, num: seq<nat>,
                              lists: seq<seq<Action>>, t: Tables) {
    && g.WellFormed() && IsAutomaton(g, a) && |look| == |a| && g.start !in a[0].trans
    && IsRenumbering(order, num) && |order| == |a| && ListsFinal(g, a, look, order, lists) && Decodes(g, num, lists, t)
  }

  lemma MatchFacts(g: Grammar, a: Automaton, look: Lookaheads, order: seq<nat>, num: seq<nat>, lists: seq<seq<Action>>,
                   t: Tables, i: nat)
    requires TablesMatch(g, a, look, order, num, lists, t) && i < |a|
    ensures order[i] < |a| && FinalList(g, a, look, order[i], lists[i]) && StateOk(g, a, order[i])
    ensures t.nstate == |a| == |num| == |lists| && t.nrule == |g.rules|
    ensures forall k :: 0 <= k < |a| ==> num[k] < |a|
    ensures IsRenumbering(order, num) && |order| == |a| == |look| && g.WellFormed() && g.start !in a[0].trans
    ensures Decodes(g, num, lists, t) && LiveOnce(lists[i])
  {
    assert FinalList(g, a, look, order[i], lists[i]);
    hide StateOk;
  }

  lemma RenumberedTrans(a: Automaton, order: seq<nat>, num: seq<nat>, i: nat, x: nat)
    requires IsRenumbering(order, num) && |order| == |a| && i < |a| && x in a[order[i]].trans
    requires a[order[i]].trans[x] < |num|
    ensures var b := Renumbered(a, order, num); x in b[i].trans && b[i].trans[x] == num[a[order[i]].trans[x]]
  {
  }

  lemma ShiftTokenOk(g: Grammar, a: Automaton, look: Lookaheads, order: seq<nat>, num: seq<nat>, t: Tables, i: nat,
                     tok: nat)
    requires IsRenumbering(order, num) && |order| == |a| == |look| && t.nstate == |a| && i < |a|
    requires tok in a[order[i]].trans && a[order[i]].trans[tok] < |num|
    requires FindShiftAction(t, i, tok) == Some(num[a[order[i]].trans[tok]])
    ensures TokenActionOk(g, Renumbered(a, order, num), RenumberedLook(look, order), t, i, tok)
  {
    RenumberedTrans(a, order, num, i, tok);
    hide Renumbered, FindShiftAction;
    assert num[a[order[i]].trans[tok]] < |num|;
  }

  lemma ReduceTokenOk(g: Grammar, a: Automaton, look: Lookaheads, order: seq<nat>, num: seq<nat>, t: Tables, i: nat,
                      tok: nat, r: nat)
    requires IsRenumbering(order, num) && |order| == |a| == |look| && t.nstate == |a| && i < |a|
    requires t.nrule == |g.rules| && r < |g.rules| && Reduces(g, a, look, order[i], CompleteItem(g, r), tok)
    requires FindShiftAction(t, i, tok) == Some(r + |a|)
    ensures TokenActionOk(g, Renumbered(a, order, num), RenumberedLook(look, order), t, i, tok)
  {
    RenumberedReduces(g, a, look, order, num, i, CompleteItem(g, r), tok);
    hide Renumbered, FindShiftAction, Reduces;
  }

  /** A live action on a token, seen through the tables. */
  lemma LiveTokenOk(g: Grammar, a: Automaton, look: Lookaheads, order: seq<nat>, num: seq<nat>, lists: seq<seq<Action>>,
                    t: Tables, i: nat, x: Action)
    requires TablesMatch(g, a, look, order, num, lists, t) && i < |a|
    requires order[i] < |a| && Candidate(g, a, look, order[i], x) && x.sp < g.nterminal
    requires FindShiftAction(t, i, x.sp) == Some(ComputeAction(g, num, x))
    ensures TokenActionOk(g, Renumbered(a, order, num), RenumberedLook(look, order), t, i, x.sp)
  {
    hide TablesMatch, FinalList, Decodes, FindShiftAction, Renumbered, Reduces, TokenActionOk, LiveOnce, StateOk,
         IsRenumbering;
    MatchFacts(g, a, look, order, num, lists, t, i);
    if x.typ == REDUCE {
      ReduceTokenOk(g, a, look, order, num, t, i, x.sp, x.arg);
    } else if x.typ == SHIFT {
      TransIsSymbol(g, a, order[i], x.sp);
      ShiftTokenOk(g, a, look, order, num, t, i, x.sp);
    }
  }

  /** A default reduce, seen through the tables. */
  lemma DefaultTokenOk(g: Grammar, a: Automaton, look: Lookaheads, order: seq<nat>, num: seq<nat>,
                       lists: seq<seq<Action>>, t: Tables,
                       i: nat, d: Action, tok: nat)
    requires TablesMatch(g, a, look, order, num, lists, t) && i < |a|
    requires order[i] < |a| && DefaultOk(g, a, look, order[i], d)
    requires FindShiftAction(t, i, tok) == Some(d.arg + |a|)
    ensures TokenActionOk(g, Renumbered(a, order, num), RenumberedLook(look, order), t, i, tok)
  {
    MatchFacts(g, a, look, order, num, lists, t, i);
    var b :| Reduces(g, a, look, order[i], CompleteItem(g, d.arg), b);
    RenumberedReduces(g, a, look, order, num, i, CompleteItem(g, d.arg), b);
  }

  lemma TokenOk(g: Grammar, a: Automaton, look: Lookaheads, order: seq<nat>, num: seq<nat>, lists: seq<seq<Action>>,
                t: Tables, i: nat, tok: nat)
    requires TablesMatch(g, a, look, order, num, lists, t) && i < |a| && tok < g.nterminal
    ensures TokenActionOk(g, Renumbered(a, order, num), RenumberedLook(look, order), t, i, tok)
  {
    MatchFacts(g, a, look, order, num, lists, t, i);
    var ap := lists[i];
    TokenAnswer(g, num, lists, t, i, tok);
    hide TablesMatch, StateOk, LiveOnce, Candidate, DefaultOk, Answered;
    if HasLive(ap, tok) {
      var x :| x in ap && Live(x) && x.sp == tok;
      LiveTokenOk(g, a, look, order, num, lists, t, i, x);
    } else {
      DefaultOfIs(g, |lists|, ap);
      if exists d :: d in ap && Live(d) && d.sp >= g.NSymbol() {
        var d :| d in ap && Live(d) && d.sp >= g.NSymbol() &&
          DefaultOf(g, |lists|, ap) == ComputeAction(g, Identity(|lists|), d);
        DefaultIsReduce(g, a, look, order[i], d);
        DefaultTokenOk(g, a, look, order, num, lists, t, i, d, tok);
      }
    }
  }

  lemma DefaultIsReduce(g: Grammar, a: Automaton, look: Lookaheads, s: nat, d: Action)
    requires s < |a| && DefaultOk(g, a, look, s, d)
    ensures ComputeAction(g, Identity(|a|), d) == d.arg + |a|
  {
  }

  /** A shift over a nonterminal, and the accept, seen through the tables. */
  lemma GotoOk(g: Grammar, a: Automaton, look: Lookaheads, order: seq<nat>, num: seq<nat>, lists: seq<seq<Action>>,
               t: Tables, i: nat, c: Action)
    requires TablesMatch(g, a, look, order, num, lists, t) && i < |a|
    requires order[i] < |a| && Candidate(g, a, look, order[i], c) && g.nterminal <= c.sp < g.NSymbol()
    ensures FindReduceAction(t, i, c.sp) == Some(ComputeAction(g, num, c))
  {
    MatchFacts(g, a, look, order, num, lists, t, i);
    var ap, s := lists[i], order[i];
    assert Answered(g, a, look, s, ap, c.sp);
    var y :| Candidate(g, a, look, s, y) && y.sp == c.sp && Answers(g, ap, y);
    assert y == c;
    assert y in ap;
    SetForAction(g, num, false, ap, y);
  }

  lemma TransIsSymbol(g: Grammar, a: Automaton, s: nat, x: nat)
    requires g.WellFormed() && s < |a| && StateOk(g, a, s) && x in a[s].trans
    ensures x < g.NSymbol() && a[s].trans[x] < |a|
  {
    var it :| it in a[s].items && ShiftsOn(g, it, x);
    assert g.RuleOk(g.rules[it.rule]);
  }

  lemma TablesForHolds(g: Grammar, a: Automaton, look: Lookaheads, order: seq<nat>, num: seq<nat>,
                       lists: seq<seq<Action>>, t: Tables)
    requires TablesMatch(g, a, look, order, num, lists, t)
    ensures TablesFor(g, Renumbered(a, order, num), RenumberedLook(look, order), t)
  {
    var b, l := Renumbered(a, order, num), RenumberedLook(look, order);
    assert order[0] == 0 && |a| > 0;
    assert |t.ruleInfo| == |g.rules| && forall r :: 0 <= r < |g.rules| ==>
      t.ruleInfo[r] == (g.rules[r].lhs, |g.rules[r].rhs| % 256);
    MatchFacts(g, a, look, order, num, lists, t, 0);
    forall i, tok | 0 <= i < |b| && 0 <= tok < g.nterminal ensures TokenActionOk(g, b, l, t, i, tok) {
      TokenOk(g, a, look, order, num, lists, t, i, tok);
    }
    hide TokenActionOk;
    forall i, x | 0 <= i < |b| && x in b[i].trans && x >= g.nterminal
      ensures FindReduceAction(t, i, x) == Some(b[i].trans[x])
    {
      GotoFoundInTables(g, a, look, order, num, lists, t, i, x);
    }
    GotoOk(g, a, look, order, num, lists, t, 0, Action(g.start, ACCEPT, 0));
  }

  lemma GotoFoundInTables(g: Grammar, a: Automaton, look: Lookaheads, order: seq<nat>, num: seq<nat>,
                          lists: seq<seq<Action>>, t: Tables, i: nat, x: nat)
    requires TablesMatch(g, a, look, order, num, lists, t) && i < |a| && g.nterminal <= x
    requires order[i] < |a| && x in a[order[i]].trans
    ensures FindReduceAction(t, i, x) == Some(Renumbered(a, order, num)[i].trans[x])
  {
    MatchFacts(g, a, look, order, num, lists, t, i);
    var k := a[order[i]].trans[x];
    TransIsSymbol(g, a, order[i], x);
    GotoOk(g, a, look, order, num, lists, t, i, Action(x, SHIFT, k));
  }

  // ---------------------------------------------------------------------------
  // Which action the tables hold

  /** The code of a shift or reduce. */
  function ActionCode(t: Tables, c: Action): int { if c.typ == SHIFT then c.arg else t.nstate + c.arg }

  /** For every state and token with a candidate, the tables hold the champion. */
  ghost predicate TablesChoose(g: Grammar, a: Automaton, look: Lookaheads, t: Tables)
    requires g.WellFormed()
  {
    forall s, tok :: 0 <= s < |a| && 0 <= tok < g.nterminal && Champion(g, a, look, s, tok, |g.rules|).Some? ==>
      FindShiftAction(t, s, tok) == Some(ActionCode(t, Champion(g, a, look, s, tok, |g.rules|).value))
  }

  /** A token without a candidate is answered with the default of the state. */
  ghost predicate DefaultsAnswer(g: Grammar, a: Automaton, look: Lookaheads, t: Tables)
    requires g.WellFormed()
  {
    && |t.dflt| == |a|
    && forall s, tok :: 0 <= s < |a| && 0 <= tok < g.nterminal && Champion(g, a, look, s, tok, |g.rules|).None? ==>
      FindShiftAction(t, s, tok) == Some(t.dflt[s])
  }

  /** Nonterminals that a state does not shift have no action there. */
  ghost predicate GotosOnly(g: Grammar, a: Automaton, t: Tables) {
    forall s, x :: 0 <= s < |a| && g.nterminal <= x < g.NSymbol() && x !in a[s].trans && !(s == 0 && x == g.start) ==>
      FindReduceAction(t, s, x) == None
  }

  function Recast(num: seq<nat>, c: Option<Action>): Option<Action> {
    if c.Some? && c.value.typ == SHIFT && c.value.arg < |num| then Some(c.value.(arg := num[c.value.arg])) else c
  }

  lemma RenumberedFirst(g: Grammar, a: Automaton, order: seq<nat>, num: seq<nat>, i: nat, tok: nat)
    requires IsRenumbering(order, num) && |order| == |a| && IsAutomaton(g, a) && i < |order|
    ensures order[i] < |a| && |Renumbered(a, order, num)| == |a|
    ensures tok in Renumbered(a, order, num)[i].trans <==> tok in a[order[i]].trans
    ensures tok in a[order[i]].trans ==>
              a[order[i]].trans[tok] < |num| && Renumbered(a, order, num)[i].trans[tok] == num[a[order[i]].trans[tok]]
  {
    hide IsClosure;
    assert StateOk(g, a, order[i]);
  }

  /** Renumbering changes the target of a shift and no outcome. */
  lemma {:induction false} RenumberedChampion(g: Grammar, a: Automaton, look: Lookaheads, order: seq<nat>,
                                              num: seq<nat>,
                                              i: nat, tok: nat, n: nat)
    requires g.WellFormed() && IsRenumbering(order, num) && |order| == |a| == |look| && IsAutomaton(g, a)
    requires i < |order| && tok < g.nterminal && n <= |g.rules|
    ensures Champion(g, Renumbered(a, order, num), RenumberedLook(look, order), i, tok, n) ==
            Recast(num, Champion(g, a, look, order[i], tok, n))
  {
    hide IsAutomaton, Renumbered, RenumberedLook, IsRenumbering, Reduces;
    assert order[i] < |a| by { RenumberedFirst(g, a, order, num, i, tok); }
    RenumberedFirst(g, a, order, num, i, tok);
    if n > 0 {
      RenumberedChampion(g, a, look, order, num, i, tok, n - 1);
      RenumberedReduces(g, a, look, order, num, i, CompleteItem(g, n - 1), tok);
    }
  }

  lemma ChampionFound(g: Grammar, a: Automaton, look: Lookaheads, order: seq<nat>, num: seq<nat>,
                      lists: seq<seq<Action>>, t: Tables,
                      i: nat, tok: nat)
    requires TablesMatch(g, a, look, order, num, lists, t) && i < |a| && tok < g.nterminal
    requires Champion(g, Renumbered(a, order, num), RenumberedLook(look, order), i, tok, |g.rules|).Some?
    ensures FindShiftAction(t, i, tok) ==
            Some(ActionCode(t,
              Champion(g, Renumbered(a, order, num), RenumberedLook(look, order), i, tok, |g.rules|).value))
  {
    hide TablesMatch, StateOk, Decodes, LiveOnce, FindShiftAction, Champion, DefaultOf, IsRenumbering, Renumbered,
         RenumberedLook, IsAutomaton;
    MatchFacts(g, a, look, order, num, lists, t, i);
    MatchAutomaton(g, a, look, order, num, lists, t);
    RenumberedChampion(g, a, look, order, num, i, tok, |g.rules|);
    var c := Champion(g, a, look, order[i], tok, |g.rules|).value;
    TokenAnswer(g, num, lists, t, i, tok);
    assert ChampionAnswers(g, a, look, order[i], lists[i], tok);
    ChampionAnswer(g, a, look, order[i], lists[i], c);
    if c.typ == SHIFT {
      ChampionShifts(g, a, look, order[i], tok, |g.rules|);
      TransIsSymbol(g, a, order[i], tok);
    }
  }

  /** A token without a candidate is answered with the default. */
  lemma DefaultFound(g: Grammar, a: Automaton, look: Lookaheads, order: seq<nat>, num: seq<nat>,
                     lists: seq<seq<Action>>, t: Tables, i: nat, tok: nat)
    requires TablesMatch(g, a, look, order, num, lists, t) && i < |a| && tok < g.nterminal
    requires Champion(g, Renumbered(a, order, num), RenumberedLook(look, order), i, tok, |g.rules|).None?
    ensures i < |t.dflt| && FindShiftAction(t, i, tok) == Some(t.dflt[i])
  {
    hide TablesMatch, StateOk, LiveOnce, FindShiftAction, Champion, DefaultOf, IsRenumbering, Renumbered,
         RenumberedLook, IsAutomaton, Candidate, Answered, ChampionAnswers, DefaultOk;
    MatchFacts(g, a, look, order, num, lists, t, i);
    MatchAutomaton(g, a, look, order, num, lists, t);
    RenumberedChampion(g, a, look, order, num, i, tok, |g.rules|);
    TokenAnswer(g, num, lists, t, i, tok);
    if HasLive(lists[i], tok) {
      var y :| y in lists[i] && Live(y) && y.sp == tok;
      CandidateCounts(g, a, look, order[i], y);
    }
  }

  lemma CandidateCounts(g: Grammar, a: Automaton, look: Lookaheads, s: nat, y: Action)
    requires g.WellFormed() && s < |a| && Candidate(g, a, look, s, y) && y.sp < g.nterminal
    ensures Champion(g, a, look, s, y.sp, |g.rules|).Some?
  {
    ChampionExists(g, a, look, s, y.sp, |g.rules|);
  }

  lemma MatchAutomaton(g: Grammar, a: Automaton, look: Lookaheads, order: seq<nat>, num: seq<nat>,
                       lists: seq<seq<Action>>, t: Tables)
    requires TablesMatch(g, a, look, order, num, lists, t)
    ensures IsAutomaton(g, a)
  {
  }

  /** An action the list answers is there by name, or is what the default says. */
  lemma ChampionAnswer(g: Grammar, a: Automaton, look: Lookaheads, s: nat, ap: seq<Action>, c: Action)
    requires s < |a| && FinalList(g, a, look, s, ap) && Answers(g, ap, c) && Live(c)
    ensures c in ap || (!HasLive(ap, c.sp) && c.typ == REDUCE && DefaultOf(g, |a|, ap) == c.arg + |a|)
  {
    hide Candidate, Answered, ChampionAnswers;
    if c !in ap {
      var d := Action(g.NSymbol(), REDUCE, c.arg);
      DefaultOfIs(g, |a|, ap);
      var d' :| d' in ap && Live(d') && d'.sp >= g.NSymbol() &&
        DefaultOf(g, |a|, ap) == ComputeAction(g, Identity(|a|), d');
      assert DefaultOk(g, a, look, s, d');
      SameWhenLive(ap, d, d');
    }
  }

  lemma GotoMissing(g: Grammar, a: Automaton, look: Lookaheads, order: seq<nat>, num: seq<nat>, lists: seq<seq<Action>>,
                    t: Tables,
                    i: nat, x: nat)
    requires TablesMatch(g, a, look, order, num, lists, t) && i < |a| && g.nterminal <= x < g.NSymbol()
    requires x !in Renumbered(a, order, num)[i].trans && !(i == 0 && x == g.start)
    ensures FindReduceAction(t, i, x) == None
  {
    MatchFacts(g, a, look, order, num, lists, t, i);
    var ap := lists[i];
    forall y | y in ap && OfKind(g, false, y) ensures y.sp != x {
      assert Candidate(g, a, look, order[i], y);
    }
    SetForNone(g, num, false, ap, x);
  }

  // ---------------------------------------------------------------------------
  // Without conflicts

  /** No symbol of the state has two candidates. */
  ghost predicate CandidatesUnique(g: Grammar, a: Automaton, look: Lookaheads, s: nat)
    requires s < |a|
  {
    forall x, y :: Candidate(g, a, look, s, x) && Candidate(g, a, look, s, y) && x.sp == y.sp ==> x == y
  }

  lemma ConflictFreeUnique(g: Grammar, a: Automaton, look: Lookaheads, s: nat)
    requires g.WellFormed() && s < |a| && g.start !in a[0].trans && ConflictFree(g, a, look)
    ensures CandidatesUnique(g, a, look, s)
  {
    forall x, y | Candidate(g, a, look, s, x) && Candidate(g, a, look, s, y) && x.sp == y.sp ensures x == y {
      if x.typ == REDUCE && y.typ == REDUCE {
        assert CompleteItem(g, x.arg) == CompleteItem(g, y.arg);
      }
    }
  }

  lemma UniqueConflictFree(g: Grammar, a: Automaton, look: Lookaheads)
    requires forall s :: 0 <= s < |a| ==> CandidatesUnique(g, a, look, s)
    requires forall s, it, t :: 0 <= s < |a| && it in a[s].items && t in LookAt(look, s, it) ==> t < g.nterminal
    ensures ConflictFree(g, a, look)
  {
    forall s: nat, it, t | Reduces(g, a, look, s, it, t) ensures Candidate(g, a, look, s, Action(t, REDUCE, it.rule)) {
      assert it == CompleteItem(g, it.rule);
    }
    forall s: nat, it, t | Reduces(g, a, look, s, it, t) ensures t !in a[s].trans {
      assert CandidatesUnique(g, a, look, s);
      assert t in a[s].trans ==> Candidate(g, a, look, s, Action(t, SHIFT, a[s].trans[t]));
    }
    forall s: nat, it, jt, t | Reduces(g, a, look, s, it, t) && Reduces(g, a, look, s, jt, t) ensures it == jt {
      assert CandidatesUnique(g, a, look, s);
      assert Action(t, REDUCE, it.rule) == Action(t, REDUCE, jt.rule);
    }
  }

  /** After resolution everything is still alive exactly if nothing had to be
      resolved. */
  lemma AllLiveIff(g: Grammar, a: Automaton, look: Lookaheads, s: nat, ap: seq<Action>)
    requires g.WellFormed() && s < |a| && ResolvedFrom(g, a, look, s, ap)
    ensures (forall x :: x in ap ==> Live(x)) <==> CandidatesUnique(g, a, look, s)
  {
    hide Candidate, ListOk, ResolvedBelow, ListsMatch, LiveOnce;
    var o :| CandidateList(g, a, look, s, o) && ListsMatch(o, ap) && ResolvedBelow(g, o, ap, |o|);
    if forall x :: x in ap ==> Live(x) {
      forall x, y | Candidate(g, a, look, s, x) && Candidate(g, a, look, s, y) && x.sp == y.sp ensures x == y {
        AllLiveUnique(g, o, ap, x, y);
      }
    }
    if CandidatesUnique(g, a, look, s) {
      forall x | x in ap ensures Live(x) {
        UniqueLive(g, o, ap, x);
      }
    }
  }

  lemma AllLiveUnique(g: Grammar, o: seq<Action>, ap: seq<Action>, x: Action, y: Action)
    requires g.WellFormed() && ListOk(g, o) && ListsMatch(o, ap) && ResolvedBelow(g, o, ap, |o|)
    requires (forall z :: z in ap ==> Live(z)) && x in o && y in o && x.sp == y.sp
    ensures x == y
  {
    ResolvedLiveOnce(g, o, ap);
    var i :| 0 <= i < |o| && o[i] == x;
    var j :| 0 <= j < |o| && o[j] == y;
    assert ap[i] in ap && ap[j] in ap && DeadOrSame(o[i], ap[i]) && DeadOrSame(o[j], ap[j]);
  }

  lemma UniqueLive(g: Grammar, o: seq<Action>, ap: seq<Action>, x: Action)
    requires g.WellFormed() && NoDup(o) && ListOk(g, o) && ListsMatch(o, ap) && ResolvedBelow(g, o, ap, |o|)
    requires (forall y, z :: y in o && z in o && y.sp == z.sp ==> y == z) && x in ap
    ensures Live(x)
  {
    var i :| 0 <= i < |ap| && ap[i] == x;
    ExactlyOneLive(g, o, ap, i);
    var w := Winner(g, o, GroupStart(o, i), GroupEnd(o, i));
    assert o[w] in o && o[i] in o;
    assert o[w] == o[i];
  }

  /** Every candidate is what the tables answer. */
  lemma CandidateFound(g: Grammar, a: Automaton, look: Lookaheads, order: seq<nat>, num: seq<nat>,
                       lists: seq<seq<Action>>, t: Tables, i: nat, c: Action)
    requires TablesMatch(g, a, look, order, num, lists, t) && ConflictFree(g, a, look) && i < |a|
    requires order[i] < |a| && Candidate(g, a, look, order[i], c) && c.sp < g.nterminal
    ensures FindShiftAction(t, i, c.sp) == Some(ComputeAction(g, num, c))
  {
    hide TablesMatch, StateOk, ConflictFree, FinalList, CandidatesUnique, DefaultOf, Decodes, IsRenumbering, LiveOnce,
         FindShiftAction;
    MatchFacts(g, a, look, order, num, lists, t, i);
    var ap, s := lists[i], order[i];
    TokenAnswer(g, num, lists, t, i, c.sp);
    ConflictFreeUnique(g, a, look, s);
    AnswerIs(g, a, look, s, ap, c);
  }

  lemma AnswerIs(g: Grammar, a: Automaton, look: Lookaheads, s: nat, ap: seq<Action>, c: Action)
    requires s < |a| && FinalList(g, a, look, s, ap) && CandidatesUnique(g, a, look, s) && Candidate(g, a, look, s, c)
    ensures (c in ap && Live(c)) || (!HasLive(ap, c.sp) && c.typ == REDUCE && DefaultOf(g, |a|, ap) == c.arg + |a|)
  {
    assert Answered(g, a, look, s, ap, c.sp);
    var y :| Candidate(g, a, look, s, y) && y.sp == c.sp && Answers(g, ap, y);
    assert y == c;
    if c !in ap {
      var d := Action(g.NSymbol(), REDUCE, c.arg);
      DefaultOfIs(g, |a|, ap);
      var d' :| d' in ap && Live(d') && d'.sp >= g.NSymbol() &&
        DefaultOf(g, |a|, ap) == ComputeAction(g, Identity(|a|), d');
      assert DefaultOk(g, a, look, s, d');
      SameWhenLive(ap, d, d');
    }
  }

  lemma SameWhenLive(ap: seq<Action>, x: Action, y: Action)
    requires LiveOnce(ap) && x in ap && y in ap && Live(x) && Live(y) && x.sp == y.sp
    ensures x == y
  {
    var i :| 0 <= i < |ap| && ap[i] == x;
    var j :| 0 <= j < |ap| && ap[j] == y;
    assert i < j || j < i || i == j;
  }

  lemma TablesCompleteHolds(g: Grammar, a: Automaton, look: Lookaheads, order: seq<nat>, num: seq<nat>,
                            lists: seq<seq<Action>>, t: Tables)
    requires TablesMatch(g, a, look, order, num, lists, t) && ConflictFree(g, a, look)
    ensures TablesComplete(g, Renumbered(a, order, num), RenumberedLook(look, order), t)
  {
    var b, l := Renumbered(a, order, num), RenumberedLook(look, order);
    hide TablesMatch, ConflictFree, FindShiftAction;
    MatchFacts(g, a, look, order, num, lists, t, 0);
    forall i, tok | 0 <= i < |b| && 0 <= tok < g.nterminal && tok in b[i].trans
      ensures FindShiftAction(t, i, tok) == Some(b[i].trans[tok])
    {
      ShiftFound(g, a, look, order, num, lists, t, i, tok);
    }
    forall i: nat, it, tok: nat | Reduces(g, b, l, i, it, tok) && tok < g.nterminal
      ensures FindShiftAction(t, i, tok) == Some(t.nstate + it.rule)
    {
      ReduceFound(g, a, look, order, num, lists, t, i, it, tok);
    }
  }

  lemma ShiftFound(g: Grammar, a: Automaton, look: Lookaheads, order: seq<nat>, num: seq<nat>, lists: seq<seq<Action>>,
                   t: Tables, i: nat, tok: nat)
    requires TablesMatch(g, a, look, order, num, lists, t) && ConflictFree(g, a, look) && i < |a| && tok < g.nterminal
    requires tok in Renumbered(a, order, num)[i].trans
    ensures FindShiftAction(t, i, tok) == Some(Renumbered(a, order, num)[i].trans[tok])
  {
    hide TablesMatch, FinalList, Decodes, FindShiftAction, LiveOnce, ConflictFree;
    MatchFacts(g, a, look, order, num, lists, t, i);
    TransIsSymbol(g, a, order[i], tok);
    CandidateFound(g, a, look, order, num, lists, t, i, Action(tok, SHIFT, a[order[i]].trans[tok]));
  }

  lemma ReduceFound(g: Grammar, a: Automaton, look: Lookaheads, order: seq<nat>, num: seq<nat>, lists: seq<seq<Action>>,
                    t: Tables,
                    i: nat, it: Item, tok: nat)
    requires TablesMatch(g, a, look, order, num, lists, t) && ConflictFree(g, a, look) && i < |a| && tok < g.nterminal
    requires Reduces(g, Renumbered(a, order, num), RenumberedLook(look, order), i, it, tok)
    ensures FindShiftAction(t, i, tok) == Some(t.nstate + it.rule)
  {
    hide TablesMatch, ConflictFree, FindShiftAction, Renumbered, RenumberedLook, FinalList, StateOk, Decodes,
         IsRenumbering, LiveOnce, Grammar.WellFormed;
    MatchFacts(g, a, look, order, num, lists, t, i);
    RenumberedReduces(g, a, look, order, num, i, it, tok);
    assert it == CompleteItem(g, it.rule);
    CandidateFound(g, a, look, order, num, lists, t, i, Action(tok, REDUCE, it.rule));
  }

  // ---------------------------------------------------------------------------
  // The generator and its parsers

  /** At every moment of every run, on any tokens: no assertion of the driver has
      failed, all that was accepted were sentences of the grammar, and the tokens
      kept since begin something the start symbol derives. */
  ghost predicate SoundParser(g: Grammar, t: Tables) {
    forall depth: nat, input: seq<nat>, n: nat :: InputOk(g, input) ==> RunOnlyAcceptsSentences(g, t, depth, input, n)
  }

  ghost predicate RunOnlyAcceptsSentences(g: Grammar, t: Tables, depth: nat, input: seq<nat>, n: nat) {
    var q := Run(t, depth, input, FreshParser, n);
    q.Some? && LogOk(g, input, q.value.log) && (q.value.stack != [] ==> ViablePrefix(g, Kept(q.value.stack)))
  }

  /** For every token string and tree: the parser accepts the string with that
      tree exactly if it is a parse of it and the stack is deep enough. */
  ghost predicate ExactParser(g: Grammar, t: Tables) {
    forall depth: nat, w: seq<nat>, tree: Tree :: depth > 0 && TokensOnly(g, w) ==> ParsesExactly(g, t, depth, w, tree)
  }

  ghost predicate ParsesExactly(g: Grammar, t: Tables, depth: nat, w: seq<nat>, tree: Tree) {
    (exists n :: AcceptsWith(t, depth, w, tree, n)) <==> IsParse(g, tree, w) && StackNeed(tree) <= depth
  }

  ghost predicate UnambiguousGrammar(g: Grammar) {
    forall w, x, y :: TokensOnly(g, w) && IsParse(g, x, w) && IsParse(g, y, w) ==> x == y
  }

  lemma StartNotShifted(g: Grammar, a: Automaton)
    requires g.StartNotOnRhs() && IsAutomaton(g, a)
    ensures g.start !in a[0].trans
  {
    assert StateOk(g, a, 0);
  }

  lemma RenumberedStartLook(g: Grammar, lambda: set<nat>, first: seq<set<nat>>, a: Automaton, look: Lookaheads,
                            order: seq<nat>, num: seq<nat>)
    requires g.StartNotOnRhs() && IsLook(g, lambda, first, a, look) && IsRenumbering(order, num) && |order| == |a|
    ensures var b, l := Renumbered(a, order, num), RenumberedLook(look, order);
            forall s, it :: 0 <= s < |b| && it in b[s].items && g.IsStartRule(it.rule) ==> LookAt(l, s, it) <= {0}
  {
    var b, l := Renumbered(a, order, num), RenumberedLook(look, order);
    forall s, it | 0 <= s < |b| && it in b[s].items && g.IsStartRule(it.rule) ensures LookAt(l, s, it) <= {0} {
      StartLookIsEnd(g, lambda, first, a, look, order[s], it);
    }
  }

  lemma GeneratedSound(g: Grammar, a: Automaton, look: Lookaheads, t: Tables)
    requires Generated(g, a, look, t)
    ensures SoundParser(g, t)
  {
    hide Generated;
    forall depth: nat, input: seq<nat>, n: nat | InputOk(g, input)
      ensures RunOnlyAcceptsSentences(g, t, depth, input, n)
    {
      RunSound(g, a, look, t, depth, input, FreshParser, n);
      RunIsViable(g, a, look, t, depth, input, n);
    }
  }

  lemma GeneratedExact(g: Grammar, a: Automaton, l: Lookaheads, look: Lookaheads, t: Tables)
    requires Generated(g, a, l, t) && Complete(g, a, look, t)
    ensures ExactParser(g, t) && UnambiguousGrammar(g)
  {
    hide Generated, Complete, AcceptsWith, IsParse;
    forall depth: nat, w: seq<nat>, tree: Tree | depth > 0 && TokensOnly(g, w)
      ensures ParsesExactly(g, t, depth, w, tree)
    {
      LanguageExact(g, a, l, look, t, depth, w, tree);
    }
    forall w, x, y | TokensOnly(g, w) && IsParse(g, x, w) && IsParse(g, y, w) ensures x == y {
      Unambiguous(g, a, look, t, w, x, y);
    }
  }

  /** The canonical automaton with its lookahead sets. */
  ghost predicate IsLalr(g: Grammar, first: seq<set<nat>>, a: Automaton, look: Lookaheads) {
    && IsFirst(g, ExplicitEmpty(g), first)
    && IsCanonical(g, a)
    && IsLook(g, ExplicitEmpty(g), first, a, look)
    && forall s, it, t :: 0 <= s < |a| && it in a[s].items && t in LookAt(look, s, it) ==> t < g.nterminal
  }

  /** Everything about the tables, in their own numbering of the states: they belong
      to an automaton of the grammar with its least lookahead sets, answer with the
      champion of every conflict or else with the default of the state, and have no
      other gotos. */
  ghost predicate Delivered(g: Grammar, first: seq<set<nat>>, b: Automaton, l: Lookaheads, t: Tables) {
    && g.WellFormed() && g.StartNotOnRhs() && IsAutomaton(g, b) && IsLook(g, ExplicitEmpty(g), first, b, l)
    && AllReached(b)
    && TablesFor(g, b, l, t) && TablesChoose(g, b, l, t) && DefaultsAnswer(g, b, l, t) && GotosOnly(g, b, t)
    && (g.RhsFits() ==> Generated(g, b, l, t))
  }

  /** The same automaton and sets under another numbering that keeps state 0. */
  ghost predicate SameUpToOrder(a: Automaton, look: Lookaheads, b: Automaton, l: Lookaheads) {
    exists order, num :: IsRenumbering(order, num) && |order| == |a| == |look|
                         && b == Renumbered(a, order, num) && l == RenumberedLook(look, order)
  }

  lemma DefaultCount(g: Grammar, num: seq<nat>, lists: seq<seq<Action>>, t: Tables)
    requires Decodes(g, num, lists, t)
    ensures |t.dflt| == |lists| && forall i :: 0 <= i < |lists| ==> t.dflt[i] == DefaultOf(g, |lists|, lists[i])
  {
    hide SetFor, DefaultOf;
  }

  lemma TablesDelivered(g: Grammar, first: seq<set<nat>>, a: Automaton, look: Lookaheads, order: seq<nat>,
                        num: seq<nat>,
                        lists: seq<seq<Action>>, t: Tables)
    requires g.WellFormed() && g.StartNotOnRhs() && IsLalr(g, first, a, look)
    requires TablesMatch(g, a, look, order, num, lists, t)
    ensures Delivered(g, first, Renumbered(a, order, num), RenumberedLook(look, order), t)
  {
    MatchFacts(g, a, look, order, num, lists, t, 0);
    var b, l := Renumbered(a, order, num), RenumberedLook(look, order);
    RenumberedAutomaton(g, a, order, num);
    RenumberedReached(g, a, order, num);
    RenumberedIsLook(g, ExplicitEmpty(g), first, a, look, order, num);
    RenumberedStartLook(g, ExplicitEmpty(g), first, a, look, order, num);
    TablesForHolds(g, a, look, order, num, lists, t);
    DefaultCount(g, num, lists, t);
    hide AllReached, TablesFor, IsAutomaton, IsLook, TablesMatch, FindShiftAction, FindReduceAction, Champion;
    forall i, tok | 0 <= i < |b| && 0 <= tok < g.nterminal && Champion(g, b, l, i, tok, |g.rules|).Some?
      ensures FindShiftAction(t, i, tok) == Some(ActionCode(t, Champion(g, b, l, i, tok, |g.rules|).value))
    {
      ChampionFound(g, a, look, order, num, lists, t, i, tok);
    }
    forall i, tok | 0 <= i < |b| && 0 <= tok < g.nterminal && Champion(g, b, l, i, tok, |g.rules|).None?
      ensures FindShiftAction(t, i, tok) == Some(t.dflt[i])
    {
      DefaultFound(g, a, look, order, num, lists, t, i, tok);
    }
    forall i, x | 0 <= i < |b| && g.nterminal <= x < g.NSymbol() && x !in b[i].trans && !(i == 0 && x == g.start)
      ensures FindReduceAction(t, i, x) == None
    {
      GotoMissing(g, a, look, order, num, lists, t, i, x);
    }
  }

  /** The tables are right for the grammar: this is all a parser built from them
      relies on. */
  lemma TablesCorrect(g: Grammar, first: seq<set<nat>>, a: Automaton, look: Lookaheads, order: seq<nat>, num: seq<nat>,
                      lists: seq<seq<Action>>, t: Tables)
    requires g.WellFormed() && g.StartNotOnRhs() && IsLalr(g, first, a, look)
    requires TablesMatch(g, a, look, order, num, lists, t)
    ensures g.RhsFits() ==> SoundParser(g, t)
    ensures ConflictFree(g, a, look) ==> TablesComplete(g, Renumbered(a, order, num), RenumberedLook(look, order), t)
    ensures g.RhsFits() && ConflictFree(g, a, look) && ScansComplete(g) ==>
              ExactParser(g, t) && UnambiguousGrammar(g) &&
                Complete(g, Renumbered(a, order, num), RenumberedLook(look, order), t)
  {
    var b, l := Renumbered(a, order, num), RenumberedLook(look, order);
    if ConflictFree(g, a, look) {
      TablesCompleteHolds(g, a, look, order, num, lists, t);
    }
    if g.RhsFits() {
      RenumberedAutomaton(g, a, order, num);
      RenumberedStartLook(g, ExplicitEmpty(g), first, a, look, order, num);
      TablesForHolds(g, a, look, order, num, lists, t);
      assert Generated(g, b, l, t);
      hide TablesFor;
      GeneratedSound(g, b, l, t);
      if ConflictFree(g, a, look) && ScansComplete(g) {
        RenumberedLookClosed(g, ExplicitEmpty(g), first, a, look, order, num);
        ScansAreReal(g, first, b, l);
        GeneratedFrame(g, b, l, t);
        hide Frame, Generated, LookClosed, TablesComplete, ScansComplete, RealClosed;
        assert Complete(g, b, l, t);
        GeneratedExact(g, b, l, l, t);
      }
    }
  }

  /** Was every action kept? */
  method NothingResolved(aps: seq<seq<Action>>) returns (clean: bool)
    ensures clean <==> forall s :: 0 <= s < |aps| ==> forall x :: x in aps[s] ==> Live(x)
  {
    clean := true;
    for s := 0 to |aps|
      invariant clean <==> forall k :: 0 <= k < s ==> forall x :: x in aps[k] ==> Live(x)
    {
      for i := 0 to |aps[s]|
        invariant clean <==> (forall k :: 0 <= k < s ==> forall x :: x in aps[k] ==>
                    Live(x)) && forall q :: 0 <= q < i ==> Live(aps[s][q])
      {
        clean := clean && Live(aps[s][i]);
      }
      assert (forall x :: x in aps[s] ==> Live(x)) <==> forall q :: 0 <= q < |aps[s]| ==> Live(aps[s][q]);
    }
  }

  /** The tables come from the lists, in some order of the states. */
  ghost predicate BuiltFrom(g: Grammar, aps: seq<seq<Action>>, order: seq<nat>, num: seq<nat>, t: Tables) {
    && IsRenumbering(order, num) && |order| == |aps|
    && Decodes(g, num, Reordered(aps, order, num), t) && LaidOut(g, num, Reordered(aps, order, num), t)
  }

  /** How many actions a list has on nonterminals and, if that is the same, on tokens. */
  ghost predicate MoreIn(g: Grammar, num: seq<nat>, a: seq<Action>, b: seq<Action>) {
    var n, m := |SetFor(g, num, false, a)|, |SetFor(g, num, false, b)|;
    n > m || (n == m && |SetFor(g, num, true, a)| >= |SetFor(g, num, true, b)|)
  }

  /** States with more actions come first, except for the first one, and the arrays of
      offsets stop at the last state that needs one. */
  ghost predicate LaidOut(g: Grammar, num: seq<nat>, lists: seq<seq<Action>>, t: Tables) {
    && (forall i, j :: 0 < i < j < |lists| ==> MoreIn(g, num, lists[i], lists[j]))
    && Trimmed(g, num, lists, true, t.shiftOfst) && Trimmed(g, num, lists, false, t.reduceOfst)
  }

  function Reordered(aps: seq<seq<Action>>, order: seq<nat>, num: seq<nat>): (lists: seq<seq<Action>>)
    requires IsRenumbering(order, num) && |order| == |aps|
  {
    seq(|aps|, i requires 0 <= i < |aps| => aps[order[i]])
  }

  /** Counting and sorting the states, then packing the tables. */
  method Emit(g: Grammar, aps: seq<seq<Action>>) returns (t: Tables, ghost order: seq<nat>, ghost num: seq<nat>)
    requires g.WellFormed() && |aps| > 0 && forall s :: 0 <= s < |aps| ==> LiveOnce(aps[s])
    ensures BuiltFrom(g, aps, order, num, t)
  {
    hide LiveOnce, SetFor, DefaultOf, Decodes;
    var nstate := |aps|;
    var counts: seq<Counts> := [];
    for s := 0 to nstate
      invariant |counts| == s
      invariant forall k :: 0 <= k < s ==> counts[k].iDflt == DefaultOf(g, nstate, aps[k])
      invariant forall k :: 0 <= k < s ==>
                  counts[k].nTkn == |SetFor(g, Identity(nstate), true, aps[k])| &&
                    counts[k].nNt == |SetFor(g, Identity(nstate), false, aps[k])|
    {
      var c := CountActions(g, Identity(nstate), nstate, aps[s]);
      counts := counts + [c];
    }
    var o, n := ResortStates(counts);
    order, num := o, n;
    var ls := Reordered(aps, o, n);
    var cs := seq(nstate, i requires 0 <= i < nstate => counts[o[i]]);
    forall i | 0 <= i < nstate
      ensures cs[i].nTkn == |SetFor(g, n, true, ls[i])| && cs[i].nNt == |SetFor(g, n, false, ls[i])|
    {
      SetForLength(g, Identity(nstate), n, true, ls[i]);
      SetForLength(g, Identity(nstate), n, false, ls[i]);
    }
    t := ReportTable(g, n, ls, cs);
    forall i, j | 0 < i < j < nstate ensures MoreIn(g, n, ls[i], ls[j]) {
      assert MoreActions(counts[o[i]], counts[o[j]]);
    }
  }

  ghost predicate AllResolved(g: Grammar, a: Automaton, look: Lookaheads, aps: seq<seq<Action>>)
    requires g.WellFormed()
  {
    |aps| == |a| && forall s :: 0 <= s < |a| ==> ResolvedFrom(g, a, look, s, aps[s])
  }

  lemma CleanIff(g: Grammar, first: seq<set<nat>>, a: Automaton, look: Lookaheads, aps: seq<seq<Action>>)
    requires g.WellFormed() && g.StartNotOnRhs() && IsLalr(g, first, a, look) && AllResolved(g, a, look, aps)
    ensures (forall s :: 0 <= s < |aps| ==> forall x :: x in aps[s] ==> Live(x)) <==> ConflictFree(g, a, look)
  {
    StartNotShifted(g, a);
    hide ResolvedFrom, CandidatesUnique, IsCanonical, IsLook, IsFirst, ConflictFree;
    forall s | 0 <= s < |a| ensures (forall x :: x in aps[s] ==> Live(x)) <==> CandidatesUnique(g, a, look, s) {
      AllLiveIff(g, a, look, s, aps[s]);
    }
    if ConflictFree(g, a, look) {
      forall s | 0 <= s < |a| ensures CandidatesUnique(g, a, look, s) {
        ConflictFreeUnique(g, a, look, s);
      }
    }
    if forall s :: 0 <= s < |a| ==> CandidatesUnique(g, a, look, s) {
      UniqueConflictFree(g, a, look);
    }
  }

  ghost predicate AllFinal(g: Grammar, a: Automaton, look: Lookaheads, aps: seq<seq<Action>>) {
    |aps| == |a| && forall s :: 0 <= s < |a| ==> FinalList(g, a, look, s, aps[s])
  }

  /** The -c option decides whether the lists are compressed. */
  ghost predicate CompressedOrNot(g: Grammar, aps: seq<seq<Action>>, final: seq<seq<Action>>, compress: bool) {
    && |final| == |aps|
    && forall s :: 0 <= s < |aps| ==> if compress then Compressed(g, aps[s], final[s]) else final[s] == aps[s]
  }

  method Finish(g: Grammar, ghost a: Automaton, ghost look: Lookaheads, aps: seq<seq<Action>>, compress: bool)
    returns (final: seq<seq<Action>>)
    requires g.WellFormed() && AllResolved(g, a, look, aps)
    ensures CompressedOrNot(g, aps, final, compress)
  {
    forall s | 0 <= s < |a| ensures LiveOnce(aps[s]) && SymbolsBelow(aps[s], g.NSymbol()) {
      ResolvedGives(g, a, look, s, aps[s]);
    }
    hide ResolvedFrom, LiveOnce, SymbolsBelow, Compressed;
    final := aps;
    if compress {
      final := CompressTables(g, aps);
    }
  }

  lemma FinishedFinal(g: Grammar, a: Automaton, look: Lookaheads, aps: seq<seq<Action>>, final: seq<seq<Action>>,
                      compress: bool)
    requires g.WellFormed() && AllResolved(g, a, look, aps) && CompressedOrNot(g, aps, final, compress)
    ensures AllFinal(g, a, look, final) && forall s :: 0 <= s < |final| ==> LiveOnce(final[s])
  {
    hide FinalList, ResolvedFrom, LiveOnce, Compressed;
    forall s | 0 <= s < |a| ensures FinalList(g, a, look, s, final[s]) && LiveOnce(final[s]) {
      if compress {
        CompressedFinal(g, a, look, s, aps[s], final[s]);
      } else {
        PlainFinal(g, a, look, s, aps[s]);
      }
      FinalOnce(g, a, look, s, final[s]);
    }
  }

  lemma FinalOnce(g: Grammar, a: Automaton, look: Lookaheads, s: nat, ap: seq<Action>)
    requires s < |a| && FinalList(g, a, look, s, ap)
    ensures LiveOnce(ap)
  {
  }

  lemma Matches(g: Grammar, first: seq<set<nat>>, a: Automaton, look: Lookaheads, final: seq<seq<Action>>,
                order: seq<nat>, num: seq<nat>, t: Tables)
    requires g.WellFormed() && g.StartNotOnRhs() && IsLalr(g, first, a, look) && AllFinal(g, a, look, final)
    requires BuiltFrom(g, final, order, num, t)
    ensures TablesMatch(g, a, look, order, num, Reordered(final, order, num), t)
  {
    StartNotShifted(g, a);
    assert |look| == |a|;
    hide FinalList, IsAutomaton, Decodes, LookClosed;
  }

  // ---------------------------------------------------------------------------
  // Which defaults there are

  /** The tokens for which the rule is the champion. */
  ghost function Wins(g: Grammar, a: Automaton, look: Lookaheads, s: nat, r: nat): set<nat>
    requires g.WellFormed() && s < |a|
  {
    set tok | 0 <= tok < g.nterminal && Champion(g, a, look, s, tok, |g.rules|) == Some(Action(tok, REDUCE, r))
  }

  /** No rule wins more tokens, leaving out those of the start symbol, and of the rules
      that win as many, this is the one that wins the least token. */
  ghost predicate Commonest(g: Grammar, a: Automaton, look: Lookaheads, s: nat, r: nat)
    requires g.WellFormed() && s < |a|
  {
    && !g.IsStartRule(r) && Wins(g, a, look, s, r) != {}
    && (forall q :: !g.IsStartRule(q) ==> |Wins(g, a, look, s, q)| <= |Wins(g, a, look, s, r)|)
    && (forall q :: !g.IsStartRule(q) && q != r && |Wins(g, a, look, s, q)| == |Wins(g, a, look, s, r)| ==>
          WinsBefore(g, a, look, s, r, q))
  }

  ghost predicate WinsBefore(g: Grammar, a: Automaton, look: Lookaheads, s: nat, r: nat, q: nat)
    requires g.WellFormed() && s < |a|
  {
    exists tok :: tok in Wins(g, a, look, s, r) && forall k :: k in Wins(g, a, look, s, q) ==> tok < k
  }

  /** So there is only one. */
  lemma OneCommonest(g: Grammar, a: Automaton, look: Lookaheads, s: nat, r: nat, q: nat)
    requires g.WellFormed() && s < |a| && Commonest(g, a, look, s, r) && Commonest(g, a, look, s, q)
    ensures r == q
  {
    hide Wins;
  }

  /** With default reductions, the commonest rule of the state is its default, if there
      is one; otherwise the default is an error. */
  ghost predicate IsDefault(g: Grammar, a: Automaton, look: Lookaheads, s: nat, compress: bool, d: int)
    requires g.WellFormed() && s < |a|
  {
    if compress && exists r :: Commonest(g, a, look, s, r)
    then exists r :: Commonest(g, a, look, s, r) && d == |a| + r
    else d == |a| + |g.rules|
  }

  ghost predicate DefaultsOk(g: Grammar, a: Automaton, look: Lookaheads, t: Tables, compress: bool)
    requires g.WellFormed()
  {
    |t.dflt| == |a| && forall s :: 0 <= s < |a| ==> IsDefault(g, a, look, s, compress, t.dflt[s])
  }

  /** The symbols for which a list reduces the rule. */
  function Reducing(ap: seq<Action>, r: nat): set<nat> {
    set i | 0 <= i < |ap| && IsReduce(ap[i], r) :: ap[i].sp
  }

  lemma {:induction false} CountIsSize(ap: seq<Action>, r: nat)
    requires LiveOnce(ap)
    ensures Count(ap, r) == |Reducing(ap, r)|
  {
    if ap != [] {
      var tail := ap[1..];
      forall i, j | 0 <= i < j < |tail| && Live(tail[i]) && Live(tail[j]) ensures tail[i].sp != tail[j].sp {
        assert tail[i] == ap[i + 1] && tail[j] == ap[j + 1];
      }
      CountIsSize(tail, r);
      ReducingFirst(ap, r);
    }
  }

  lemma ReducingFirst(ap: seq<Action>, r: nat)
    requires LiveOnce(ap) && ap != []
    ensures Reducing(ap, r) == Reducing(ap[1..], r) + if IsReduce(ap[0], r) then {ap[0].sp} else {}
    ensures IsReduce(ap[0], r) ==> ap[0].sp !in Reducing(ap[1..], r)
  {
    var tail := ap[1..];
    forall x ensures x in Reducing(ap, r) <==> x in Reducing(tail, r) || (IsReduce(ap[0], r) && x == ap[0].sp) {
      if x in Reducing(ap, r) {
        var i :| 0 <= i < |ap| && IsReduce(ap[i], r) && ap[i].sp == x;
        assert i > 0 ==> tail[i - 1] == ap[i];
      }
      if x in Reducing(tail, r) {
        var i :| 0 <= i < |tail| && IsReduce(tail[i], r) && tail[i].sp == x;
        assert tail[i] == ap[i + 1];
      }
    }
    assert forall i :: 0 <= i < |tail| ==> tail[i] == ap[i + 1];
  }

  /** Those are the tokens the rule wins. */
  lemma ReducingIsWins(g: Grammar, a: Automaton, look: Lookaheads, s: nat, ap: seq<Action>, r: nat)
    requires g.WellFormed() && s < |a| && ResolvedFrom(g, a, look, s, ap)
    ensures Count(ap, r) == |Wins(g, a, look, s, r)|
    ensures forall tok :: tok in Wins(g, a, look, s, r) ==> Action(tok, REDUCE, r) in ap
  {
    hide ResolvedFrom, LiveOnce, Champion, Reduces;
    ResolvedGives(g, a, look, s, ap);
    CountIsSize(ap, r);
    forall tok | tok in Reducing(ap, r) ensures tok in Wins(g, a, look, s, r) {
      var i :| 0 <= i < |ap| && IsReduce(ap[i], r) && ap[i].sp == tok;
      assert ap[i] in ap && Candidate(g, a, look, s, ap[i]);
      LiveIsChampion(g, a, look, s, ap, ap[i]);
    }
    forall tok | tok in Wins(g, a, look, s, r) ensures tok in Reducing(ap, r) && Action(tok, REDUCE, r) in ap {
      ChampionLives(g, a, look, s, ap, tok);
      var i :| 0 <= i < |ap| && ap[i] == Action(tok, REDUCE, r);
    }
    assert Reducing(ap, r) == Wins(g, a, look, s, r);
  }

  lemma PlainHasNoDefault(g: Grammar, n: nat, ap: seq<Action>)
    requires SymbolsBelow(ap, g.NSymbol())
    ensures DefaultOf(g, n, ap) == n + |g.rules|
  {
    DefaultOfIs(g, n, ap);
  }

  lemma DefaultIsBest(g: Grammar, n: nat, ap: seq<Action>, bp: seq<Action>, r: nat)
    requires SymbolsBelow(ap, g.NSymbol()) && CompressedBy(g, ap, bp, Some(r))
    ensures DefaultOf(g, n, bp) == r + n
  {
    DefaultOfIs(g, n, bp);
    assert Action(g.NSymbol(), REDUCE, r) in bp;
  }

  lemma ResolvedSorted(g: Grammar, a: Automaton, look: Lookaheads, s: nat, ap: seq<Action>, i: nat, j: nat)
    requires g.WellFormed() && s < |a| && ResolvedFrom(g, a, look, s, ap) && i <= j < |ap|
    ensures ap[i].sp <= ap[j].sp
  {
    hide Candidate, ResolvedBelow, NoDup, ListOk;
    var o :| CandidateList(g, a, look, s, o) && ListsMatch(o, ap) && ResolvedBelow(g, o, ap, |o|);
    SortedBySymbol(g, o, i, j);
    MatchAt(g, o, ap, i);
    MatchAt(g, o, ap, j);
  }

  lemma BestIsCommonest(g: Grammar, a: Automaton, look: Lookaheads, s: nat, ap: seq<Action>, r: nat)
    requires g.WellFormed() && s < |a| && ResolvedFrom(g, a, look, s, ap) && IsBest(g, ap, Some(r))
    ensures Commonest(g, a, look, s, r)
  {
    hide ResolvedFrom, LiveOnce, Candidate, Wins;
    forall q: nat
      ensures Count(ap, q) == |Wins(g, a, look, s, q)|
      ensures forall tok :: tok in Wins(g, a, look, s, q) ==> Action(tok, REDUCE, q) in ap
    {
      ReducingIsWins(g, a, look, s, ap, q);
    }
    var f :| BestAt(g, ap, r, f);
    forall q | !g.IsStartRule(q) && q != r && |Wins(g, a, look, s, q)| == |Wins(g, a, look, s, r)|
      ensures WinsBefore(g, a, look, s, r, q)
    {
      FirstWins(g, a, look, s, ap, r, f, q);
    }
  }

  lemma FirstWins(g: Grammar, a: Automaton, look: Lookaheads, s: nat, ap: seq<Action>, r: nat, f: nat, q: nat)
    requires g.WellFormed() && s < |a| && ResolvedFrom(g, a, look, s, ap) && BestAt(g, ap, r, f)
    requires !g.IsStartRule(q) && q != r && Count(ap, q) == Count(ap, r)
    ensures WinsBefore(g, a, look, s, r, q)
  {
    hide ResolvedFrom, Champion, Reduces;
    ResolvedGives(g, a, look, s, ap);
    var tok := ap[f].sp;
    assert ap[f] in ap && Candidate(g, a, look, s, ap[f]);
    LiveIsChampion(g, a, look, s, ap, ap[f]);
    assert tok in Wins(g, a, look, s, r);
    forall k | k in Wins(g, a, look, s, q) ensures tok < k {
      ReducingIsWins(g, a, look, s, ap, q);
      var j :| 0 <= j < |ap| && ap[j] == Action(k, REDUCE, q);
      assert f < j;
      ResolvedSorted(g, a, look, s, ap, f, j);
    }
  }

  lemma ListDefault(g: Grammar, a: Automaton, look: Lookaheads, s: nat, ap: seq<Action>, bp: seq<Action>,
                    compress: bool)
    requires g.WellFormed() && s < |a| && ResolvedFrom(g, a, look, s, ap)
    requires if compress then Compressed(g, ap, bp) else bp == ap
    ensures IsDefault(g, a, look, s, compress, DefaultOf(g, |a|, bp))
  {
    hide ResolvedFrom, LiveOnce, DefaultOf, Wins, Candidate, CompressedBy;
    ResolvedGives(g, a, look, s, ap);
    forall r: nat
      ensures Count(ap, r) == |Wins(g, a, look, s, r)|
      ensures forall tok :: tok in Wins(g, a, look, s, r) ==> Action(tok, REDUCE, r) in ap
    {
      ReducingIsWins(g, a, look, s, ap, r);
    }
    if compress {
      var rbest :| IsBest(g, ap, rbest) && CompressedBy(g, ap, bp, rbest);
      if rbest.Some? {
        DefaultIsBest(g, |a|, ap, bp, rbest.value);
        BestIsCommonest(g, a, look, s, ap, rbest.value);
      } else {
        NotCompressed(g, ap, bp);
        PlainHasNoDefault(g, |a|, ap);
        forall r | !g.IsStartRule(r) ensures Wins(g, a, look, s, r) == {} {
          CountPositive(ap, r);
        }
      }
    } else {
      PlainHasNoDefault(g, |a|, ap);
    }
  }

  /** Renumbering changes none of this. */
  lemma RenumberedWins(g: Grammar, a: Automaton, look: Lookaheads, order: seq<nat>, num: seq<nat>, i: nat, r: nat)
    requires g.WellFormed() && IsRenumbering(order, num) && |order| == |a| == |look| && IsAutomaton(g, a) && i < |a|
    ensures Wins(g, Renumbered(a, order, num), RenumberedLook(look, order), i, r) == Wins(g, a, look, order[i], r)
  {
    hide IsAutomaton, Renumbered, RenumberedLook, Champion;
    var b, l := Renumbered(a, order, num), RenumberedLook(look, order);
    RenumberedFirst(g, a, order, num, i, 0);
    forall tok: nat | tok < g.nterminal
      ensures tok in Wins(g, b, l, i, r) <==> tok in Wins(g, a, look, order[i], r)
    {
      RenumberedChampion(g, a, look, order, num, i, tok, |g.rules|);
    }
  }

  lemma RenumberedDefault(g: Grammar, a: Automaton, look: Lookaheads, order: seq<nat>, num: seq<nat>, i: nat,
                          compress: bool, d: int)
    requires g.WellFormed() && IsRenumbering(order, num) && |order| == |a| == |look| && IsAutomaton(g, a) && i < |a|
    requires IsDefault(g, a, look, order[i], compress, d)
    ensures IsDefault(g, Renumbered(a, order, num), RenumberedLook(look, order), i, compress, d)
  {
    hide IsAutomaton, Renumbered, RenumberedLook, Wins;
    var b, l := Renumbered(a, order, num), RenumberedLook(look, order);
    RenumberedFirst(g, a, order, num, i, 0);
    forall r: nat ensures Wins(g, b, l, i, r) == Wins(g, a, look, order[i], r) {
      RenumberedWins(g, a, look, order, num, i, r);
    }
    assert forall r: nat, q: nat :: WinsBefore(g, b, l, i, r, q) <==> WinsBefore(g, a, look, order[i], r, q);
    assert forall r: nat :: Commonest(g, b, l, i, r) <==> Commonest(g, a, look, order[i], r);
  }

  /** After the first state, those with gotos come first, and `yy_reduce_ofst` holds
      exactly those. */
  ghost predicate GotosFirst(g: Grammar, a: Automaton, t: Tables) {
    forall i :: 0 < i < |a| ==> (i < |t.reduceOfst| <==> HasGoto(g, a, i))
  }

  ghost predicate HasGoto(g: Grammar, a: Automaton, s: nat)
    requires s < |a|
  {
    exists x :: g.nterminal <= x && x in a[s].trans
  }

  lemma NoSetNoGoto(g: Grammar, a: Automaton, look: Lookaheads, order: seq<nat>, num: seq<nat>,
                    lists: seq<seq<Action>>, t: Tables, i: nat)
    requires TablesMatch(g, a, look, order, num, lists, t) && 0 < i < |a|
    ensures SetFor(g, num, false, lists[i]) == [] <==> !HasGoto(g, Renumbered(a, order, num), i)
  {
    MatchFacts(g, a, look, order, num, lists, t, i);
    assert order[i] != 0 by { assert num[order[i]] == i && num[0] == 0; }
    hide StateOk, LiveOnce, IsRenumbering, Decodes, TablesMatch, FindReduceAction;
    var es, b := SetFor(g, num, false, lists[i]), Renumbered(a, order, num);
    if es != [] {
      SetForMembers(g, num, false, lists[i], es[0]);
      var x :| x in lists[i] && OfKind(g, false, x) && es[0] == Slot(x.sp, ComputeAction(g, num, x));
      assert Candidate(g, a, look, order[i], x);
      assert x.sp in b[i].trans;
    }
    if x :| g.nterminal <= x && x in b[i].trans {
      var c := Action(x, SHIFT, a[order[i]].trans[x]);
      assert Candidate(g, a, look, order[i], c);
      GotoListed(g, a, look, order[i], lists[i], c);
      TransIsSymbol(g, a, order[i], x);
      SetForMembers(g, num, false, lists[i], Slot(c.sp, ComputeAction(g, num, c)));
    }
  }

  lemma GotoListed(g: Grammar, a: Automaton, look: Lookaheads, s: nat, ap: seq<Action>, c: Action)
    requires 0 < s < |a| && FinalList(g, a, look, s, ap) && Candidate(g, a, look, s, c) && g.nterminal <= c.sp
    ensures c in ap
  {
    assert Answered(g, a, look, s, ap, c.sp);
    var y :| Candidate(g, a, look, s, y) && y.sp == c.sp && Answers(g, ap, y);
    assert y == c;
  }

  lemma LaidOutGotos(g: Grammar, a: Automaton, look: Lookaheads, order: seq<nat>, num: seq<nat>,
                     lists: seq<seq<Action>>, t: Tables)
    requires TablesMatch(g, a, look, order, num, lists, t) && LaidOut(g, num, lists, t)
    requires IsRenumbering(order, num) && |order| == |a| == |lists|
    ensures GotosFirst(g, Renumbered(a, order, num), t)
  {
    var b := Renumbered(a, order, num);
    hide TablesMatch, SetFor, IsRenumbering, Renumbered, HasGoto;
    assert |b| == |a| by { RenumberedSize(a, order, num); }
    forall i | 0 < i < |b| ensures i < |t.reduceOfst| <==> HasGoto(g, b, i) {
      NoSetNoGoto(g, a, look, order, num, lists, t, i);
      var n := |t.reduceOfst|;
      if i < n - 1 { assert MoreIn(g, num, lists[i], lists[n - 1]); }
    }
  }

  lemma RenumberedSize(a: Automaton, order: seq<nat>, num: seq<nat>)
    requires IsRenumbering(order, num) && |order| == |a|
    ensures |Renumbered(a, order, num)| == |a|
  {
  }

  lemma DefaultsHold(g: Grammar, first: seq<set<nat>>, a: Automaton, look: Lookaheads, aps: seq<seq<Action>>,
                     final: seq<seq<Action>>, compress: bool, order: seq<nat>, num: seq<nat>, t: Tables)
    requires g.WellFormed() && IsLalr(g, first, a, look) && AllResolved(g, a, look, aps)
    requires CompressedOrNot(g, aps, final, compress) && BuiltFrom(g, final, order, num, t)
    ensures |look| == |order| == |a| && forall i :: 0 <= i < |order| ==> order[i] < |look|
    ensures DefaultsOk(g, Renumbered(a, order, num), RenumberedLook(look, order), t, compress)
  {
    assert IsAutomaton(g, a) && |look| == |a|;
    hide IsDefault, IsAutomaton, ResolvedFrom, Compressed, DefaultOf, Decodes, IsLalr;
    DefaultCount(g, num, Reordered(final, order, num), t);
    var b, l := Renumbered(a, order, num), RenumberedLook(look, order);
    forall i | 0 <= i < |b| ensures IsDefault(g, b, l, i, compress, t.dflt[i]) {
      ListDefault(g, a, look, order[i], aps[order[i]], final[order[i]], compress);
      RenumberedDefault(g, a, look, order, num, i, compress, t.dflt[i]);
    }
  }

  // ---------------------------------------------------------------------------
  // The whole generator

  lemma StatesAreLalr(g: Grammar, first: seq<set<nat>>, states: seq<State>, look: Lookaheads)
    requires IsFirst(g, ExplicitEmpty(g), first) && Constructed(g, ExplicitEmpty(g), first, states)
    requires IsLook(g, ExplicitEmpty(g), first, Abstract(states), look)
    requires forall s, it :: 0 <= s < |states| && it in states[s].cfp ==>
                it in look[s] && forall t :: t in look[s][it] ==> t < g.nterminal
    ensures IsLalr(g, first, Abstract(states), look) && LookDomain(g, states, look) && |Abstract(states)| > 0
  {
    hide IsAutomaton;
    var a := Abstract(states);
    assert |a| > 0 by { NonEmpty(g, ExplicitEmpty(g), first, states); }
    forall s, it, t | 0 <= s < |a| && it in a[s].items && t in LookAt(look, s, it) ensures t < g.nterminal {
      assert it in states[s].cfp;
    }
  }

  /** From a grammar to its states and their resolved actions. `clean` tells whether
      no action had to give way to another. */
  method FrontEnd(g: Grammar)
    returns (aps: seq<seq<Action>>, nconflict: nat, clean: bool,
             ghost first: seq<set<nat>>, ghost a: Automaton, ghost look: Lookaheads)
    requires g.WellFormed() && g.StartNotOnRhs()
    ensures IsLalr(g, first, a, look) && AllResolved(g, a, look, aps)
    ensures (clean <==> ConflictFree(g, a, look)) && (clean ==> nconflict == 0)
    ensures nconflict == |Clashes(g, a, look)| && (nconflict == 0 <==> AllSettled(g, a, look))
  {
    hide IsLook, IsCanonical, ConflictFree, FirstClosed, Constructed, ResolvedFrom, ExplicitEmpty, ClashesBelow,
         AllSettled;
    var lambda, first' := FindFirstSets(g);
    first := first';
    var states := FindStates(g, lambda, first');
    a := Abstract(states);
    var look' := FindLookaheads(g, lambda, first', states);
    look := look';
    StatesAreLalr(g, first, states, look);
    hide IsFirst, IsLalr, LookDomain;
    NoStartShift(g, first, a, look);
    var ok;
    aps, nconflict, ok := FindActions(g, lambda, first', states, look');
    assert AllResolved(g, a, look, aps);
    clean := NothingResolved(aps);
    CleanIff(g, first, a, look, aps);
    if clean { NoConflictsAnywhere(aps); }
    ConflictsOfStates(g, a, look, aps);
    NoClashes(g, a, look);
  }

  /** From the resolved actions to the tables of the parser. */
  method BackEnd(g: Grammar, aps: seq<seq<Action>>, compress: bool,
                 ghost first: seq<set<nat>>, ghost a: Automaton, ghost look: Lookaheads)
    returns (t: Tables, ghost final: seq<seq<Action>>, ghost order: seq<nat>, ghost num: seq<nat>,
             ghost b: Automaton, ghost l: Lookaheads)
    requires g.WellFormed() && g.StartNotOnRhs() && IsLalr(g, first, a, look) && AllResolved(g, a, look, aps)
    ensures CompressedOrNot(g, aps, final, compress) && BuiltFrom(g, final, order, num, t)
    ensures Delivered(g, first, b, l, t) && SameUpToOrder(a, look, b, l) && DefaultsOk(g, b, l, t, compress)
    ensures GotosFirst(g, b, t)
    ensures g.RhsFits() ==> SoundParser(g, t)
    ensures ConflictFree(g, a, look) ==> TablesComplete(g, b, l, t)
    ensures g.RhsFits() && ConflictFree(g, a, look) && ScansComplete(g) ==>
              ExactParser(g, t) && UnambiguousGrammar(g) && Complete(g, b, l, t)
  {
    hide ConflictFree, SoundParser, ExactParser, ScansComplete, UnambiguousGrammar, Delivered,
         Complete, TablesComplete, IsLalr, DefaultsOk, ResolvedFrom, AllFinal, LiveOnce, TablesMatch, CompressedOrNot;
    var lists := Finish(g, a, look, aps, compress);
    final := lists;
    FinishedFinal(g, a, look, aps, final, compress);
    FinishedSize(g, first, a, look, aps, final, compress);
    t, order, num := Emit(g, lists);
    Matches(g, first, a, look, final, order, num, t);
    b, l := Numbered(g, first, a, look, order, num, Reordered(final, order, num), t);
    DefaultsHold(g, first, a, look, aps, final, compress, order, num, t);
    LaidOutGotos(g, a, look, order, num, Reordered(final, order, num), t);
  }

  lemma FinishedSize(g: Grammar, first: seq<set<nat>>, a: Automaton, look: Lookaheads, aps: seq<seq<Action>>,
                     final: seq<seq<Action>>, compress: bool)
    requires g.WellFormed() && g.StartNotOnRhs() && IsLalr(g, first, a, look) && AllResolved(g, a, look, aps)
    requires CompressedOrNot(g, aps, final, compress)
    ensures |final| == |a| > 0
  {
    NoStartShift(g, first, a, look);
  }

  /** From a grammar to the tables of its parser; `compress` is the opposite of the -c
      option. */
  method Generate(g: Grammar, compress: bool)
    returns (t: Tables, nconflict: nat, clean: bool,
             ghost first: seq<set<nat>>, ghost a: Automaton, ghost look: Lookaheads, ghost b: Automaton,
             ghost l: Lookaheads)
    requires g.WellFormed() && g.StartNotOnRhs()
    ensures Delivered(g, first, b, l, t) && SameUpToOrder(a, look, b, l) && DefaultsOk(g, b, l, t, compress)
    ensures IsLalr(g, first, a, look) && (clean <==> ConflictFree(g, a, look)) && (clean ==> nconflict == 0)
    ensures nconflict == |Clashes(g, a, look)| && (nconflict == 0 <==> AllSettled(g, a, look))
    ensures GotosFirst(g, b, t)
    ensures g.RhsFits() ==> SoundParser(g, t)
    ensures clean ==> TablesComplete(g, b, l, t)
    ensures clean && g.RhsFits() && ScansComplete(g) ==>
            ExactParser(g, t) && UnambiguousGrammar(g) && Complete(g, b, l, t)
  {
    hide *;
    var aps;
    aps, nconflict, clean, first, a, look := FrontEnd(g);
    ghost var final, order, num;
    t, final, order, num, b, l := BackEnd(g, aps, compress, first, a, look);
  }

  lemma Numbered(g: Grammar, first: seq<set<nat>>, a: Automaton, look: Lookaheads, order: seq<nat>, num: seq<nat>,
                 lists: seq<seq<Action>>, t: Tables) returns (b: Automaton, l: Lookaheads)
    requires g.WellFormed() && g.StartNotOnRhs() && IsLalr(g, first, a, look)
    requires TablesMatch(g, a, look, order, num, lists, t)
    ensures Delivered(g, first, b, l, t) && SameUpToOrder(a, look, b, l)
    ensures g.RhsFits() ==> SoundParser(g, t)
    ensures ConflictFree(g, a, look) ==> TablesComplete(g, b, l, t)
    ensures g.RhsFits() && ConflictFree(g, a, look) && ScansComplete(g) ==>
              ExactParser(g, t) && UnambiguousGrammar(g) && Complete(g, b, l, t)
    ensures IsRenumbering(order, num) && |order| == |a| == |look|
    ensures b == Renumbered(a, order, num) && l == RenumberedLook(look, order)
  {
    hide TablesComplete;
    hide Delivered, IsLalr, TablesMatch, Renumbered, RenumberedLook, SoundParser, ExactParser, UnambiguousGrammar,
         Complete, ScansComplete, ConflictFree;
    TablesCorrect(g, first, a, look, order, num, lists, t);
    NoStartShift(g, first, a, look);
    MatchFacts(g, a, look, order, num, lists, t, 0);
    b, l := Renumbered(a, order, num), RenumberedLook(look, order);
    TablesDelivered(g, first, a, look, order, num, lists, t);
  }

  lemma NoStartShift(g: Grammar, first: seq<set<nat>>, a: Automaton, look: Lookaheads)
    requires g.StartNotOnRhs() && IsLalr(g, first, a, look)
    ensures |a| > 0 && g.start !in a[0].trans
  {
    StartNotShifted(g, a);
  }
}
