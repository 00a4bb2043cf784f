/** Which action wins a conflict, said without the lists: the shift and then the
    completed rules in their order, each against the champion so far. */
module Champions {
  import opened Options
  import opened Grammars
  import opened Automata
  import opened Sorting
  import opened ActionLists
  import opened Actions

  /** The champion among the shift and the first `n` rules, for a state and token. */
  function Champion(g: Grammar, a: Automaton, look: Lookaheads, s: nat, tok: nat, n: nat): (c: Option<Action>)
    requires g.WellFormed() && s < |a| && tok < g.nterminal && n <= |g.rules|
    ensures c.Some? ==> ActionOk(g, c.value) && c.value.sp == tok && (c.value.typ == SHIFT || c.value.typ == REDUCE)
  {
    if n == 0 then
      if tok in a[s].trans then Some(Action(tok, SHIFT, a[s].trans[tok])) else None
    else
      var best, c := Champion(g, a, look, s, tok, n - 1), Action(tok, REDUCE, n - 1);
      if !Reduces(g, a, look, s, CompleteItem(g, n - 1), tok) then best
      else if best.None? || Displaces(g, best.value, c) then Some(c)
      else best
  }

  /** There is one as soon as there is a candidate. */
  lemma {:induction false} ChampionExists(g: Grammar, a: Automaton, look: Lookaheads, s: nat, tok: nat, n: nat)
    requires g.WellFormed() && s < |a| && tok < g.nterminal && n <= |g.rules|
    ensures Champion(g, a, look, s, tok, n).Some? <==>
            tok in a[s].trans || exists r :: 0 <= r < n && Reduces(g, a, look, s, CompleteItem(g, r), tok)
  {
    if n > 0 {
      ChampionExists(g, a, look, s, tok, n - 1);
    }
  }

  /** A shift is one of the state's, a reduce one of a candidate. */
  lemma {:induction false} ChampionShifts(g: Grammar, a: Automaton, look: Lookaheads, s: nat, tok: nat, n: nat)
    requires g.WellFormed() && s < |a| && tok < g.nterminal && n <= |g.rules|
    ensures var c := Champion(g, a, look, s, tok, n);
            c.Some? && c.value.typ == SHIFT ==> tok in a[s].trans && c.value.arg == a[s].trans[tok]
  {
    if n > 0 { ChampionShifts(g, a, look, s, tok, n - 1); }
  }

  lemma {:induction false} ChampionReduces(g: Grammar, a: Automaton, look: Lookaheads, s: nat, tok: nat, n: nat)
    requires g.WellFormed() && s < |a| && tok < g.nterminal && n <= |g.rules|
    ensures var c := Champion(g, a, look, s, tok, n);
            c.Some? && c.value.typ == REDUCE ==>
              c.value.arg < n && Reduces(g, a, look, s, CompleteItem(g, c.value.arg), tok)
  {
    if n > 0 { ChampionReduces(g, a, look, s, tok, n - 1); }
  }

  /** Rules that are not candidates change nothing. */
  lemma {:induction false} ChampionStays(g: Grammar, a: Automaton, look: Lookaheads, s: nat, tok: nat, m: nat, n: nat)
    requires g.WellFormed() && s < |a| && tok < g.nterminal && m <= n <= |g.rules|
    requires forall r :: m <= r < n ==> !Reduces(g, a, look, s, CompleteItem(g, r), tok)
    ensures Champion(g, a, look, s, tok, n) == Champion(g, a, look, s, tok, m)
    decreases n
  {
    if m < n {
      ChampionStays(g, a, look, s, tok, m, n - 1);
    }
  }

  // ---------------------------------------------------------------------------
  // The champion of a sorted list

  lemma OrderedBefore(o: seq<Action>, i: nat, j: nat)
    requires Sorted(ActionCmp, o) && i < |o| && j < |o| && ActionCmp(o[i], o[j]) < 0
    ensures i < j
  {
    assert j < i ==> ActionCmp(o[j], o[i]) <= 0;
  }

  /** What has the symbol of a group does not lie before its left border. */
  lemma InGroup(g: Grammar, o: seq<Action>, b: nat, i: nat)
    requires ListOk(g, o) && b < |o| && i < |o| && (b == 0 || o[b - 1].sp != o[b].sp) && o[i].sp == o[b].sp
    ensures b <= i
  {
    if b > 0 {
      var c: nat := b - 1;
      SortedBySymbol(g, o, c, b);
      if i <= c { SortedBySymbol(g, o, i, c); }
    }
  }

  /** Number of rules up to and including the one an action reduces. */
  function RulesUpto(x: Action): nat { if x.typ == REDUCE then x.arg + 1 else 0 }

  ghost predicate Group(g: Grammar, o: seq<Action>, b: nat, m: nat) {
    && b < m <= |o| && (b == 0 || o[b - 1].sp != o[b].sp) && o[b].sp < g.nterminal
    && forall k :: b <= k < m ==> o[k].sp == o[b].sp
  }

  lemma TokenCandidate(g: Grammar, a: Automaton, look: Lookaheads, s: nat, o: seq<Action>, k: nat)
    requires g.WellFormed() && s < |a| && CandidateList(g, a, look, s, o) && k < |o| && o[k].sp < g.nterminal
    ensures o[k].typ == SHIFT ==> o[k].sp in a[s].trans && o[k] == Action(o[k].sp, SHIFT, a[s].trans[o[k].sp])
    ensures o[k].typ != SHIFT ==>
              && o[k] == Action(o[k].sp, REDUCE, o[k].arg) && o[k].arg < |g.rules|
              && Reduces(g, a, look, s, CompleteItem(g, o[k].arg), o[k].sp)
  {
    hide ListOk, NoDup, Reduces;
    assert o[k] in o;
  }

  /** The first of a group: nothing with a smaller rule, and no shift before it. */
  lemma GroupHead(g: Grammar, a: Automaton, look: Lookaheads, s: nat, o: seq<Action>, b: nat)
    requires g.WellFormed() && s < |a| && CandidateList(g, a, look, s, o) && Group(g, o, b, b + 1)
    ensures RulesUpto(o[b]) <= |g.rules| && Champion(g, a, look, s, o[b].sp, RulesUpto(o[b])) == Some(o[b])
    ensures o[b].typ == REDUCE ==> Champion(g, a, look, s, o[b].sp, o[b].arg).None?
  {
    var tok := o[b].sp;
    TokenCandidate(g, a, look, s, o, b);
    if o[b].typ != SHIFT {
      var r := o[b].arg;
      if tok in a[s].trans {
        BeforeHead(g, a, look, s, o, b, Action(tok, SHIFT, a[s].trans[tok]));
      }
      forall q | 0 <= q < r ensures !Reduces(g, a, look, s, CompleteItem(g, q), tok) {
        if Reduces(g, a, look, s, CompleteItem(g, q), tok) {
          BeforeHead(g, a, look, s, o, b, Action(tok, REDUCE, q));
        }
      }
      ChampionExists(g, a, look, s, tok, r);
    }
  }

  lemma BeforeHead(g: Grammar, a: Automaton, look: Lookaheads, s: nat, o: seq<Action>, b: nat, c: Action)
    requires g.WellFormed() && s < |a| && CandidateList(g, a, look, s, o) && Group(g, o, b, b + 1)
    requires Candidate(g, a, look, s, c) && c.sp == o[b].sp
    ensures !(ActionCmp(c, o[b]) < 0)
  {
    hide Candidate, NoDup;
    var i: nat :| i < |o| && o[i] == c;
    InGroup(g, o, b, i);
    if ActionCmp(c, o[b]) < 0 {
      OrderedBefore(o, i, b);
    }
  }

  /** Neighbours in a group: a rule follows, with no candidate between. */
  lemma GroupStep(g: Grammar, a: Automaton, look: Lookaheads, s: nat, o: seq<Action>, b: nat, m: nat)
    requires g.WellFormed() && s < |a| && CandidateList(g, a, look, s, o) && b < m && Group(g, o, b, m + 1)
    ensures o[m].typ == REDUCE && RulesUpto(o[m - 1]) <= o[m].arg < |g.rules|
    ensures Reduces(g, a, look, s, CompleteItem(g, o[m].arg), o[b].sp)
    ensures forall r :: RulesUpto(o[m - 1]) <= r < o[m].arg ==> !Reduces(g, a, look, s, CompleteItem(g, r), o[b].sp)
  {
    var tok := o[b].sp;
    TokenCandidate(g, a, look, s, o, m - 1);
    TokenCandidate(g, a, look, s, o, m);
    assert ActionCmp(o[m - 1], o[m]) <= 0 && o[m - 1] != o[m];
    forall r | RulesUpto(o[m - 1]) <= r < o[m].arg ensures !Reduces(g, a, look, s, CompleteItem(g, r), tok) {
      if Reduces(g, a, look, s, CompleteItem(g, r), tok) {
        NotBetween(g, a, look, s, o, m, Action(tok, REDUCE, r));
      }
    }
  }

  lemma NotBetween(g: Grammar, a: Automaton, look: Lookaheads, s: nat, o: seq<Action>, m: nat, c: Action)
    requires g.WellFormed() && s < |a| && CandidateList(g, a, look, s, o) && 0 < m < |o| && Candidate(g, a, look, s, c)
    ensures !(ActionCmp(o[m - 1], c) < 0 && ActionCmp(c, o[m]) < 0)
  {
    hide Candidate, NoDup;
    var i: nat, d: nat :| i < |o| && o[i] == c && d == m - 1;
    if ActionCmp(o[d], c) < 0 { OrderedBefore(o, d, i); }
    if ActionCmp(c, o[m]) < 0 { OrderedBefore(o, i, m); }
  }

  lemma {:induction false} WinnerIsChampion(g: Grammar, a: Automaton, look: Lookaheads, s: nat, o: seq<Action>, b: nat,
                                            m: nat)
    requires g.WellFormed() && s < |a| && CandidateList(g, a, look, s, o) && Group(g, o, b, m)
    ensures RulesUpto(o[m - 1]) <= |g.rules|
    ensures Champion(g, a, look, s, o[b].sp, RulesUpto(o[m - 1])) == Some(o[Winner(g, o, b, m)])
    decreases m
  {
    hide Candidate, Sorted, NoDup, Reduces, Displaces, GroupStart, GroupEnd;
    if m == b + 1 {
      GroupHead(g, a, look, s, o, b);
    } else {
      WinnerIsChampion(g, a, look, s, o, b, m - 1);
      GroupStep(g, a, look, s, o, b, m - 1);
      ChampionStays(g, a, look, s, o[b].sp, RulesUpto(o[m - 2]), o[m - 1].arg);
      TokenCandidate(g, a, look, s, o, m - 1);
    }
  }

  lemma {:induction false} GroupBorder(o: seq<Action>, i: nat)
    requires i < |o|
    ensures var b := GroupStart(o, i); (b == 0 || o[b - 1].sp != o[b].sp) && forall k :: b <= k <= i ==>
                o[k].sp == o[i].sp
    decreases i
  {
    if !(i == 0 || o[i - 1].sp != o[i].sp) { GroupBorder(o, i - 1); }
  }

  lemma {:induction false} GroupBorderEnd(o: seq<Action>, i: nat)
    requires i < |o|
    ensures var e := GroupEnd(o, i); (e == |o| || o[e].sp != o[i].sp) && forall k :: i <= k < e ==> o[k].sp == o[i].sp
    decreases |o| - i
  {
    if !(i + 1 == |o| || o[i + 1].sp != o[i].sp) { GroupBorderEnd(o, i + 1); }
  }

  lemma GroupChampion(g: Grammar, a: Automaton, look: Lookaheads, s: nat, o: seq<Action>, i: nat)
    requires g.WellFormed() && s < |a| && CandidateList(g, a, look, s, o) && i < |o| && o[i].sp < g.nterminal
    ensures Champion(g, a, look, s, o[i].sp, |g.rules|) == Some(o[Winner(g, o, GroupStart(o, i), GroupEnd(o, i))])
  {
    hide Candidate, Sorted, NoDup, Reduces, Displaces, Champion, Winner, GroupStart, GroupEnd;
    var b, e := GroupStart(o, i), GroupEnd(o, i);
    GroupBorder(o, i);
    GroupBorderEnd(o, i);
    WinnerIsChampion(g, a, look, s, o, b, e);
    AfterGroup(g, a, look, s, o, b, e);
    ChampionStays(g, a, look, s, o[i].sp, RulesUpto(o[e - 1]), |g.rules|);
  }

  /** What resolution leaves alive for a token is the champion. */
  lemma LiveIsChampion(g: Grammar, a: Automaton, look: Lookaheads, s: nat, ap: seq<Action>, y: Action)
    requires g.WellFormed() && s < |a| && ResolvedFrom(g, a, look, s, ap) && y in ap && Live(y) && y.sp < g.nterminal
    ensures Champion(g, a, look, s, y.sp, |g.rules|) == Some(y)
  {
    hide Candidate, Sorted, NoDup, Champion, Winner, GroupStart, GroupEnd;
    var o :| CandidateList(g, a, look, s, o) && ListsMatch(o, ap) && ResolvedBelow(g, o, ap, |o|);
    var i :| 0 <= i < |ap| && ap[i] == y;
    assert GroupResolved(g, o, ap, i) && DeadOrSame(o[i], ap[i]);
    GroupChampion(g, a, look, s, o, i);
  }

  lemma AfterGroup(g: Grammar, a: Automaton, look: Lookaheads, s: nat, o: seq<Action>, b: nat, e: nat)
    requires g.WellFormed() && s < |a| && CandidateList(g, a, look, s, o) && Group(g, o, b, e)
    requires (e == |o| || o[e].sp != o[b].sp)
    ensures forall r :: RulesUpto(o[e - 1]) <= r < |g.rules| ==> !Reduces(g, a, look, s, CompleteItem(g, r), o[b].sp)
  {
    var tok := o[b].sp;
    TokenCandidate(g, a, look, s, o, e - 1);
    forall r | RulesUpto(o[e - 1]) <= r < |g.rules| ensures !Reduces(g, a, look, s, CompleteItem(g, r), tok) {
      if Reduces(g, a, look, s, CompleteItem(g, r), tok) {
        NotAfter(g, a, look, s, o, b, e, Action(tok, REDUCE, r));
      }
    }
  }

  lemma NotAfter(g: Grammar, a: Automaton, look: Lookaheads, s: nat, o: seq<Action>, b: nat, e: nat, c: Action)
    requires g.WellFormed() && s < |a| && CandidateList(g, a, look, s, o) && Group(g, o, b, e)
    requires (e == |o| || o[e].sp != o[b].sp)
    requires Candidate(g, a, look, s, c) && c.sp == o[b].sp
    ensures !(ActionCmp(o[e - 1], c) < 0)
  {
    hide Candidate, NoDup;
    var i: nat, d: nat :| i < |o| && o[i] == c && d == e - 1;
    if e < |o| { SortedBySymbol(g, o, d, e); }
    if e <= i { SortedBySymbol(g, o, e, i); }
    if ActionCmp(o[d], c) < 0 { OrderedBefore(o, d, i); }
  }

  // ---------------------------------------------------------------------------
  // Which conflicts are left

  /** Rule `r` is a candidate for the token, and neither precedence nor associativity
      decides between it and the champion of the shift and the rules before it. */
  ghost predicate Clash(g: Grammar, a: Automaton, look: Lookaheads, s: nat, tok: nat, r: nat)
    requires g.WellFormed() && s < |a|
  {
    && tok < g.nterminal && r < |g.rules| && Reduces(g, a, look, s, CompleteItem(g, r), tok)
    && var c := Champion(g, a, look, s, tok, r); c.Some? && Undecided(g, c.value, Action(tok, REDUCE, r))
  }

  /** A nonterminal has one action at most. */
  lemma AloneOnNonterminal(g: Grammar, a: Automaton, look: Lookaheads, s: nat, o: seq<Action>, i: nat)
    requires g.WellFormed() && s < |a| && CandidateList(g, a, look, s, o) && i < |o| && g.nterminal <= o[i].sp
    requires |a| > 0 && g.start !in a[0].trans
    ensures GroupStart(o, i) == i && o[i].typ != REDUCE
  {
    hide ListOk;
    assert o[i] in o;
    assert i > 0 ==> o[i - 1] in o && o[i - 1] != o[i];
  }

  /** What is marked as a conflict is one. */
  lemma MarkedIsClash(g: Grammar, a: Automaton, look: Lookaheads, s: nat, o: seq<Action>, ap: seq<Action>, i: nat)
    requires g.WellFormed() && s < |a| && CandidateList(g, a, look, s, o) && ListsMatch(o, ap) && i < |o|
    requires GroupResolved(g, o, ap, i) && g.start !in a[0].trans
    ensures IsConflict(ap[i]) <==> o[i].typ == REDUCE && Clash(g, a, look, s, o[i].sp, o[i].arg)
  {
    hide Candidate, Sorted, NoDup, Champion, Winner, Undecided, IsConflict, Live, DeadOrSame, GroupEnd, Reduces;
    var b := GroupStart(o, i);
    if o[i].sp >= g.nterminal {
      AloneOnNonterminal(g, a, look, s, o, i);
    } else {
      GroupBorder(o, i);
      TokenCandidate(g, a, look, s, o, i);
      if i == b {
        GroupHead(g, a, look, s, o, b);
      } else {
        WinnerIsChampion(g, a, look, s, o, b, i);
        GroupStep(g, a, look, s, o, b, i);
        ChampionStays(g, a, look, s, o[b].sp, RulesUpto(o[i - 1]), o[i].arg);
      }
    }
  }

  /** The conflicts of one state. */
  ghost function ClashesAt(g: Grammar, a: Automaton, look: Lookaheads, s: nat): set<(nat, nat, nat)>
    requires g.WellFormed() && s < |a|
  {
    set tok, r | 0 <= tok < g.nterminal && 0 <= r < |g.rules| && Clash(g, a, look, s, tok, r) :: (s, tok, r)
  }

  /** Those of the first `n` states: state, token and the rule that lost. */
  ghost function ClashesBelow(g: Grammar, a: Automaton, look: Lookaheads, n: nat): set<(nat, nat, nat)>
    requires g.WellFormed() && n <= |a|
  {
    set s, tok, r | 0 <= s < n && 0 <= tok < g.nterminal && 0 <= r < |g.rules| && Clash(g, a, look, s, tok, r) ::
      (s, tok, r)
  }

  /** All conflicts of an automaton that are not settled. */
  ghost function Clashes(g: Grammar, a: Automaton, look: Lookaheads): set<(nat, nat, nat)>
    requires g.WellFormed()
  {
    ClashesBelow(g, a, look, |a|)
  }

  /** Every candidate that lost did so by precedence or associativity. */
  ghost predicate AllSettled(g: Grammar, a: Automaton, look: Lookaheads)
    requires g.WellFormed()
  {
    forall s, tok, r :: 0 <= s < |a| && 0 <= tok && 0 <= r ==> !Clash(g, a, look, s, tok, r)
  }

  lemma NoClashes(g: Grammar, a: Automaton, look: Lookaheads)
    requires g.WellFormed()
    ensures |Clashes(g, a, look)| == 0 <==> AllSettled(g, a, look)
  {
    hide Champion, Undecided, Reduces;
    if |Clashes(g, a, look)| == 0 {
      forall s, tok, r | 0 <= s < |a| && 0 <= tok && 0 <= r ensures !Clash(g, a, look, s, tok, r) {
        assert (s, tok, r) !in Clashes(g, a, look);
      }
    }
    if AllSettled(g, a, look) {
      assert Clashes(g, a, look) == {};
    }
  }

  ghost function MarkedIn(s: nat, ap: seq<Action>): set<(nat, nat, nat)> {
    set i | 0 <= i < |ap| && IsConflict(ap[i]) :: (s, ap[i].sp, ap[i].arg)
  }

  lemma {:induction false} CountMarked(s: nat, ap: seq<Action>)
    requires forall i, j :: 0 <= i < j < |ap| && IsConflict(ap[i]) && IsConflict(ap[j]) ==>
               ap[i].sp != ap[j].sp || ap[i].arg != ap[j].arg
    ensures Conflicts(ap) == |MarkedIn(s, ap)|
  {
    hide IsConflict;
    if ap != [] {
      var tail := ap[1..];
      assert forall i :: 0 <= i < |tail| ==> tail[i] == ap[i + 1];
      CountMarked(s, tail);
      var head := (s, ap[0].sp, ap[0].arg);
      forall p ensures p in MarkedIn(s, ap) <==> p in MarkedIn(s, tail) || (IsConflict(ap[0]) && p == head) {
        if p in MarkedIn(s, ap) {
          var i :| 0 <= i < |ap| && IsConflict(ap[i]) && p == (s, ap[i].sp, ap[i].arg);
          assert i > 0 ==> tail[i - 1] == ap[i];
        }
        if p in MarkedIn(s, tail) {
          var i :| 0 <= i < |tail| && IsConflict(tail[i]) && p == (s, tail[i].sp, tail[i].arg);
          assert tail[i] == ap[i + 1];
        }
      }
      assert MarkedIn(s, ap) == MarkedIn(s, tail) + if IsConflict(ap[0]) then {head} else {};
    }
  }

  lemma MarkedOnce(g: Grammar, a: Automaton, look: Lookaheads, s: nat, o: seq<Action>, ap: seq<Action>)
    requires g.WellFormed() && s < |a| && CandidateList(g, a, look, s, o) && ListsMatch(o, ap)
    requires forall i :: 0 <= i < |o| && IsConflict(ap[i]) ==> o[i].typ == REDUCE
    ensures forall i, j :: 0 <= i < j < |ap| && IsConflict(ap[i]) && IsConflict(ap[j]) ==>
              ap[i].sp != ap[j].sp || ap[i].arg != ap[j].arg
  {
    hide IsConflict, ListOk, Candidate;
    forall i, j | 0 <= i < j < |ap| && IsConflict(ap[i]) && IsConflict(ap[j])
      ensures ap[i].sp != ap[j].sp || ap[i].arg != ap[j].arg
    {
      assert DeadOrSame(o[i], ap[i]) && DeadOrSame(o[j], ap[j]) && o[i] != o[j];
    }
  }

  lemma ConflictsOfState(g: Grammar, a: Automaton, look: Lookaheads, s: nat, ap: seq<Action>)
    requires g.WellFormed() && s < |a| && ResolvedFrom(g, a, look, s, ap) && g.start !in a[0].trans
    ensures Conflicts(ap) == |ClashesAt(g, a, look, s)|
  {
    hide Candidate, Clash, IsConflict, Conflicts, ListOk, GroupResolved, DeadOrSame, Reduces;
    var o: seq<Action> :| CandidateList(g, a, look, s, o) && ListsMatch(o, ap) && ResolvedBelow(g, o, ap, |o|);
    forall i | 0 <= i < |o|
      ensures IsConflict(ap[i]) <==> o[i].typ == REDUCE && Clash(g, a, look, s, o[i].sp, o[i].arg)
      ensures ap[i].sp == o[i].sp && ap[i].arg == o[i].arg
    {
      MarkedIsClash(g, a, look, s, o, ap, i);
      SameFields(o, ap, i);
    }
    MarkedOnce(g, a, look, s, o, ap);
    CountMarked(s, ap);
    MarkedAll(g, a, look, s, o, ap);
  }

  lemma SameFields(o: seq<Action>, ap: seq<Action>, i: nat)
    requires ListsMatch(o, ap) && i < |o|
    ensures ap[i].sp == o[i].sp && ap[i].arg == o[i].arg
  {
    assert DeadOrSame(o[i], ap[i]);
  }

  lemma MarkedAll(g: Grammar, a: Automaton, look: Lookaheads, s: nat, o: seq<Action>, ap: seq<Action>)
    requires g.WellFormed() && s < |a| && CandidateList(g, a, look, s, o) && |o| == |ap|
    requires forall i :: 0 <= i < |o| ==>
               && (IsConflict(ap[i]) <==> o[i].typ == REDUCE && Clash(g, a, look, s, o[i].sp, o[i].arg))
               && ap[i].sp == o[i].sp && ap[i].arg == o[i].arg
    ensures MarkedIn(s, ap) == ClashesAt(g, a, look, s)
  {
    hide IsConflict, ListOk, NoDup;
    forall p: (nat, nat, nat) ensures p in MarkedIn(s, ap) <==> p in ClashesAt(g, a, look, s) {
      if p in MarkedIn(s, ap) {
        var i :| 0 <= i < |ap| && IsConflict(ap[i]) && p == (s, ap[i].sp, ap[i].arg);
        assert Clash(g, a, look, s, p.1, p.2);
      }
      if p in ClashesAt(g, a, look, s) {
        var x := Action(p.1, REDUCE, p.2);
        assert Candidate(g, a, look, s, x);
        var i :| 0 <= i < |o| && o[i] == x;
      }
    }
  }

  lemma {:induction false} ConflictsOfStates(g: Grammar, a: Automaton, look: Lookaheads, aps: seq<seq<Action>>)
    requires g.WellFormed() && |aps| <= |a| && |a| > 0 && g.start !in a[0].trans
    requires forall s :: 0 <= s < |aps| ==> ResolvedFrom(g, a, look, s, aps[s])
    ensures AllConflicts(aps) == |ClashesBelow(g, a, look, |aps|)|
    decreases |aps|
  {
    hide ResolvedFrom, Clash, Conflicts;
    if aps == [] {
      assert ClashesBelow(g, a, look, 0) == {};
    } else {
      var n := |aps| - 1;
      ConflictsOfStates(g, a, look, aps[..n]);
      ConflictsOfState(g, a, look, n, aps[n]);
      assert ClashesBelow(g, a, look, n + 1) == ClashesBelow(g, a, look, n) + ClashesAt(g, a, look, n);
      assert ClashesBelow(g, a, look, n) !! ClashesAt(g, a, look, n);
    }
  }
}
