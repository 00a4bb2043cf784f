/** `FindActions` and `resolve_conflict`: the candidate actions of every state,
    and the one that is kept for each symbol. */
module Actions {
  import opened Grammars
  import opened Automata
  import opened Sorting
  import opened Closures
  import opened ActionLists
  import opened States
  import opened Lookahead

  /** What `compute_action` gives a table entry for. */
  predicate Live(a: Action) {
    a.typ == SHIFT || a.typ == ACCEPT || a.typ == REDUCE || a.typ == ERROR
  }

  // ---------------------------------------------------------------------------
  // Resolving one conflict

  datatype Resolution = Resolution(x: Action, y: Action, errcnt: nat, assertHolds: bool)

  predicate ActionOk(g: Grammar, a: Action) {
    a.sp < g.NSymbol() && (a.typ == REDUCE ==> a.arg < |g.rules|)
  }

  /** `resolve_conflict`; `assertHolds` is false where an assertion would fail. */
  function ResolveConflict(g: Grammar, x: Action, y: Action): Resolution
    requires g.WellFormed() && ActionOk(g, x) && ActionOk(g, y)
  {
    var shiftShift := x.typ == SHIFT && y.typ == SHIFT;
    var y := if shiftShift then y.(typ := SSCONFLICT) else y;
    var errcnt := if shiftShift then 1 else 0;
    if x.typ == SHIFT && y.typ == REDUCE then
      var spx, spy := g.symbols[x.sp], g.rules[y.arg].precsym;
      assert g.RuleOk(g.rules[y.arg]);
      if spy.None? || spx.prec < 0 || g.symbols[spy.value].prec < 0
        then Resolution(x, y.(typ := SRCONFLICT), errcnt + 1, true)
      else if spx.prec > g.symbols[spy.value].prec then Resolution(x, y.(typ := RD_RESOLVED), errcnt, true)
      else if spx.prec < g.symbols[spy.value].prec then Resolution(x.(typ := SH_RESOLVED), y, errcnt, true)
      else if spx.assoc == RIGHT then Resolution(x, y.(typ := RD_RESOLVED), errcnt, true)
      else if spx.assoc == LEFT then Resolution(x.(typ := SH_RESOLVED), y, errcnt, true)
      else Resolution(x, y.(typ := SRCONFLICT), errcnt + 1, spx.assoc == NONASSOC)
    else if x.typ == REDUCE && y.typ == REDUCE then
      var spx, spy := g.rules[x.arg].precsym, g.rules[y.arg].precsym;
      assert g.RuleOk(g.rules[x.arg]) && g.RuleOk(g.rules[y.arg]);
      if spx.None? || spy.None? || g.symbols[spx.value].prec < 0 || g.symbols[spy.value].prec < 0
         || g.symbols[spx.value].prec == g.symbols[spy.value].prec
      then Resolution(x, y.(typ := RRCONFLICT), errcnt + 1, true)
      else if g.symbols[spx.value].prec > g.symbols[spy.value].prec
        then Resolution(x, y.(typ := RD_RESOLVED), errcnt, true)
      else Resolution(x.(typ := RD_RESOLVED), y, errcnt, true)
    else
      Resolution(x, y, errcnt, !Live(x) || !Live(y))
  }

  /** A conflict that precedence could not settle. */
  predicate IsConflict(a: Action) {
    a.typ == SSCONFLICT || a.typ == SRCONFLICT || a.typ == RRCONFLICT
  }

  function Conflicts(ap: seq<Action>): nat {
    if ap == [] then 0 else (if IsConflict(ap[0]) then 1 else 0) + Conflicts(ap[1..])
  }

  lemma {:induction false} ConflictsUpdate(ap: seq<Action>, i: nat, a: Action)
    requires i < |ap|
    ensures Conflicts(ap[i := a]) + (if IsConflict(ap[i]) then 1 else 0) ==
            Conflicts(ap) + (if IsConflict(a) then 1 else 0)
  {
    if i == 0 {
      assert ap[i := a][1..] == ap[1..];
    } else {
      ConflictsUpdate(ap[1..], i - 1, a);
      assert ap[i := a][1..] == ap[1..][i - 1 := a];
    }
  }

  /** The count returned is the number of actions that became conflicts. */
  lemma ResolveCounts(g: Grammar, ap: seq<Action>, x: nat, y: nat)
    requires g.WellFormed() && x < y < |ap| && ActionOk(g, ap[x]) && ActionOk(g, ap[y])
    ensures var r := ResolveConflict(g, ap[x], ap[y]);
            Conflicts(ap[x := r.x][y := r.y]) == Conflicts(ap) + r.errcnt
  {
    hide Conflicts;
    var r := ResolveConflict(g, ap[x], ap[y]);
    ConflictsUpdate(ap, x, r.x);
    ConflictsUpdate(ap[x := r.x], y, r.y);
  }

  lemma {:induction false} NoConflictsYet(ap: seq<Action>)
    requires forall i :: 0 <= i < |ap| ==> !IsConflict(ap[i])
    ensures Conflicts(ap) == 0
  {
    if ap != [] { NoConflictsYet(ap[1..]); }
  }

  function AllConflicts(aps: seq<seq<Action>>): nat {
    if aps == [] then 0 else AllConflicts(aps[..|aps| - 1]) + Conflicts(aps[|aps| - 1])
  }

  lemma {:induction false} NoConflictsAnywhere(aps: seq<seq<Action>>)
    requires forall s :: 0 <= s < |aps| ==> forall x :: x in aps[s] ==> !IsConflict(x)
    ensures AllConflicts(aps) == 0
  {
    if aps != [] {
      NoConflictsAnywhere(aps[..|aps| - 1]);
      NoConflictsYet(aps[|aps| - 1]);
    }
  }

  /** The second of two actions displaces the first. */
  predicate Displaces(g: Grammar, x: Action, y: Action)
    requires g.WellFormed() && ActionOk(g, x) && ActionOk(g, y)
  {
    !Live(ResolveConflict(g, x, y).x)
  }

  /** Precedence of a rule, if it has one. */
  function RulePrec(g: Grammar, r: nat): int
    requires g.WellFormed() && r < |g.rules|
  {
    assert g.RuleOk(g.rules[r]);
    if g.rules[r].precsym.None? then -1 else g.symbols[g.rules[r].precsym.value].prec
  }

  /** Precedence of an action: that of the token shifted, or of the rule reduced. */
  function ActionPrec(g: Grammar, x: Action): int
    requires g.WellFormed() && ActionOk(g, x)
  {
    if x.typ == SHIFT then g.symbols[x.sp].prec else if x.typ == REDUCE then RulePrec(g, x.arg) else -1
  }

  /** Neither precedence nor associativity decides between the first and the second. */
  predicate Undecided(g: Grammar, x: Action, y: Action)
    requires g.WellFormed() && ActionOk(g, x) && ActionOk(g, y)
  {
    var px, py := ActionPrec(g, x), ActionPrec(g, y);
    || y.typ == SHIFT || px < 0 || py < 0
    || (px == py && (x.typ == REDUCE || (g.symbols[x.sp].assoc != LEFT && g.symbols[x.sp].assoc != RIGHT)))
  }

  /** Resolving two candidates of a sorted list leaves exactly one of them, and
      precedence and associativity say which. The loser is marked and counted as a
      conflict exactly if they do not decide. */
  lemma ResolvesToOne(g: Grammar, x: Action, y: Action)
    requires g.WellFormed() && ActionOk(g, x) && ActionOk(g, y)
    requires Live(x) && Live(y) && x.sp == y.sp && ActionCmp(x, y) <= 0
    requires x.typ != ACCEPT && y.typ != ACCEPT && x.typ != ERROR && y.typ != ERROR
    ensures var r := ResolveConflict(g, x, y);
            && r.assertHolds
            && (Live(r.x) <==> !Live(r.y))
            && (Live(r.x) ==> r.x == x) && (Live(r.y) ==> r.y == y)
            && r.x.sp == x.sp && r.x.arg == x.arg && r.y.sp == y.sp && r.y.arg == y.arg
    ensures Displaces(g, x, y) <==>
            && y.typ == REDUCE && RulePrec(g, y.arg) >= 0
            && var px := if x.typ == SHIFT then g.symbols[x.sp].prec else RulePrec(g, x.arg);
               0 <= px && (px < RulePrec(g, y.arg) ||
                           (x.typ == SHIFT && px == RulePrec(g, y.arg) && g.symbols[x.sp].assoc == LEFT))
    ensures var r := ResolveConflict(g, x, y);
            && !IsConflict(r.x) && (IsConflict(r.y) <==> Undecided(g, x, y))
            && r.errcnt == if Undecided(g, x, y) then 1 else 0
    ensures var r := ResolveConflict(g, x, y);
            && (!Live(r.x) ==> r.x.typ == if x.typ == SHIFT then SH_RESOLVED else RD_RESOLVED)
            && (!Live(r.y) ==> r.y.typ == if !Undecided(g, x, y) then RD_RESOLVED
                                          else if y.typ == SHIFT then SSCONFLICT
                                          else if x.typ == SHIFT then SRCONFLICT else RRCONFLICT)
  {
    if y.typ == REDUCE { assert g.RuleOk(g.rules[y.arg]); }
    if x.typ == REDUCE { assert g.RuleOk(g.rules[x.arg]); }
  }

  /** Nothing happens to an action that has already lost, nor to its partner. */
  lemma ResolvedStays(g: Grammar, x: Action, y: Action)
    requires g.WellFormed() && ActionOk(g, x) && ActionOk(g, y)
    requires !Live(x) || !Live(y)
    ensures var r := ResolveConflict(g, x, y); r.x == x && r.y == y && r.assertHolds
  {
  }

  // ---------------------------------------------------------------------------
  // Resolving a sorted list

  ghost predicate ListOk(g: Grammar, o: seq<Action>) {
    && Sorted(ActionCmp, o)
    && forall i :: 0 <= i < |o| ==> ActionOk(g, o[i]) && Live(o[i]) && o[i].typ != ERROR
  }

  function GroupStart(o: seq<Action>, i: nat): (b: nat)
    requires i < |o|
    ensures b <= i && o[b].sp == o[i].sp
  {
    if i == 0 || o[i - 1].sp != o[i].sp then i else GroupStart(o, i - 1)
  }

  function GroupEnd(o: seq<Action>, i: nat): (e: nat)
    requires i < |o|
    ensures i < e <= |o| && o[e - 1].sp == o[i].sp
    decreases |o| - i
  {
    if i + 1 == |o| || o[i + 1].sp != o[i].sp then i + 1 else GroupEnd(o, i + 1)
  }

  /** The champion of o[b..m]: each newcomer is pitted against the champion so far. */
  function Winner(g: Grammar, o: seq<Action>, b: nat, m: nat): (w: nat)
    requires g.WellFormed() && b < m <= |o| && forall i :: 0 <= i < |o| ==> ActionOk(g, o[i])
    ensures b <= w < m
    decreases m
  {
    if m == b + 1 then b
    else
      var w := Winner(g, o, b, m - 1);
      if Displaces(g, o[w], o[m - 1]) then m - 1 else w
  }

  /** An accept shares its symbol with another action. */
  ghost predicate AcceptClash(o: seq<Action>) {
    exists i, j :: 0 <= i < |o| && 0 <= j < |o| && i != j && o[i].sp == o[j].sp && o[i].typ == ACCEPT
  }

  predicate DeadOrSame(o: Action, a: Action) {
    a == o || (!Live(a) && a.sp == o.sp && a.arg == o.arg)
  }

  ghost predicate ListsMatch(o: seq<Action>, ap: seq<Action>) {
    |ap| == |o| && forall i :: 0 <= i < |o| ==> DeadOrSame(o[i], ap[i])
  }

  /** Member `i` of the group from `b` met a champion, and nothing decided between them. */
  ghost predicate Unsettled(g: Grammar, o: seq<Action>, b: nat, i: nat)
    requires g.WellFormed() && ListOk(g, o) && b <= i < |o|
  {
    b < i && Undecided(g, o[Winner(g, o, b, i)], o[i])
  }

  /** The live members of a finished group: its champion; the conflicts in it: those that
      lost without a decision. */
  ghost predicate GroupResolved(g: Grammar, o: seq<Action>, ap: seq<Action>, i: nat)
    requires g.WellFormed() && ListOk(g, o) && ListsMatch(o, ap) && i < |o|
  {
    && (Live(ap[i]) <==> i == Winner(g, o, GroupStart(o, i), GroupEnd(o, i)))
    && (IsConflict(ap[i]) <==> Unsettled(g, o, GroupStart(o, i), i))
  }

  /** The group o[b..] in progress: o[..m] have met, and only their champion is
      left of them. */
  ghost predicate GroupMet(g: Grammar, o: seq<Action>, ap: seq<Action>, b: nat, m: nat)
    requires g.WellFormed() && ListOk(g, o) && ListsMatch(o, ap) && b < m <= |o|
  {
    && (forall i :: b <= i < m ==> (Live(ap[i]) <==> i == Winner(g, o, b, m)))
    && (forall i :: b <= i < m ==> (IsConflict(ap[i]) <==> Unsettled(g, o, b, i)))
    && (forall i :: m <= i < |o| ==> ap[i] == o[i])
  }

  lemma {:induction false} GroupStartIs(o: seq<Action>, b: nat, i: nat)
    requires b <= i < |o| && (b == 0 || o[b - 1].sp != o[b].sp) && forall k :: b <= k <= i ==> o[k].sp == o[b].sp
    ensures GroupStart(o, i) == b
    decreases i
  {
    if i > b {
      GroupStartIs(o, b, i - 1);
    }
  }

  lemma {:induction false} GroupEndIs(o: seq<Action>, i: nat, e: nat)
    requires i < e <= |o| && (e == |o| || o[e].sp != o[i].sp) && forall k :: i <= k < e ==> o[k].sp == o[i].sp
    ensures GroupEnd(o, i) == e
    decreases e - i
  {
    if i + 1 < e {
      GroupEndIs(o, i + 1, e);
    }
  }

  /** The champion meets the next member of its group. */
  lemma MeetNext(g: Grammar, o: seq<Action>, ap: seq<Action>, b: nat, m: nat)
    requires g.WellFormed() && ListOk(g, o) && ListsMatch(o, ap) && b < m < |o| && GroupMet(g, o, ap, b, m)
    requires o[b].sp == o[m].sp && o[Winner(g, o, b, m)].typ != ACCEPT && o[m].typ != ACCEPT
    ensures var w := Winner(g, o, b, m);
            var r := ResolveConflict(g, ap[w], ap[m]);
            && r.assertHolds
            && ListsMatch(o, ap[w := r.x][m := r.y])
            && GroupMet(g, o, ap[w := r.x][m := r.y], b, m + 1)
  {
    hide ResolveConflict, Sorted, ActionCmp, Live, RulePrec, Unsettled, IsConflict;
    var w := Winner(g, o, b, m);
    ChampionMeets(g, o, ap, b, m);
    LiveIsNone(ap[w]);
  }

  lemma LiveIsNone(a: Action)
    ensures Live(a) ==> !IsConflict(a)
  {
  }

  lemma ChampionMeets(g: Grammar, o: seq<Action>, ap: seq<Action>, b: nat, m: nat)
    requires g.WellFormed() && ListOk(g, o) && ListsMatch(o, ap) && b < m < |o| && GroupMet(g, o, ap, b, m)
    requires o[b].sp == o[m].sp && o[Winner(g, o, b, m)].typ != ACCEPT && o[m].typ != ACCEPT
    ensures var w := Winner(g, o, b, m);
            var r := ResolveConflict(g, o[w], o[m]);
            && ap[w] == o[w] && ap[m] == o[m] && r.assertHolds
            && (Live(r.x) <==> !Live(r.y)) && DeadOrSame(o[w], r.x) && DeadOrSame(o[m], r.y)
            && !IsConflict(r.x) && (IsConflict(r.y) <==> Unsettled(g, o, b, m))
  {
    hide ResolveConflict, RulePrec, Undecided;
    var w := Winner(g, o, b, m);
    SortedBySymbol(g, o, b, w);
    SortedBySymbol(g, o, w, m);
    assert ActionCmp(o[w], o[m]) <= 0;
    ResolvesToOne(g, o[w], o[m]);
  }

  /** Where the group of `x` stands: the champion `w` of o[b..m] has met the whole
      group if it is behind x, and nobody after itself otherwise. */
  ghost predicate Progress(g: Grammar, o: seq<Action>, ap: seq<Action>, b: nat, m: nat, x: nat, y: nat)
    requires g.WellFormed() && ListOk(g, o) && ListsMatch(o, ap)
  {
    && b <= x < y <= |o| && b < m <= |o|
    && (b == 0 || o[b - 1].sp != o[b].sp)
    && (forall k :: b <= k < y ==> o[k].sp == o[b].sp)
    && (forall k :: b <= k < m ==> o[k].sp == o[b].sp)
    && GroupMet(g, o, ap, b, m)
    && var w := Winner(g, o, b, m);
       && (w < x ==> m == |o| || o[m].sp != o[b].sp)
       && (w == x ==> m == y)
       && (w > x ==> m == w + 1)
  }

  /** The champion's turn: it meets the next member. */
  lemma ProgressMeets(g: Grammar, o: seq<Action>, ap: seq<Action>, b: nat, x: nat, y: nat)
    requires g.WellFormed() && ListOk(g, o) && ListsMatch(o, ap) && !AcceptClash(o)
    requires Progress(g, o, ap, b, y, x, y) && Winner(g, o, b, y) == x && y < |o| && o[y].sp == o[x].sp
    requires ActionOk(g, ap[x]) && ActionOk(g, ap[y])
    ensures var r := ResolveConflict(g, ap[x], ap[y]);
            && r.assertHolds
            && ListsMatch(o, ap[x := r.x][y := r.y])
            && Progress(g, o, ap[x := r.x][y := r.y], b, y + 1, x, y + 1)
  {
    NoClashAt(g, o, x, y);
    MeetNext(g, o, ap, b, y);
    WinnerStep(g, o, b, y);
    hide ResolveConflict, Live, Sorted, GroupMet, DeadOrSame, AcceptClash;
  }

  /** The turn of somebody who has lost already: nothing happens. */
  lemma ProgressIdle(g: Grammar, o: seq<Action>, ap: seq<Action>, b: nat, m: nat, x: nat, y: nat)
    requires g.WellFormed() && ListOk(g, o) && ListsMatch(o, ap)
    requires Progress(g, o, ap, b, m, x, y) && Winner(g, o, b, m) != x && y < |o| && o[y].sp == o[x].sp
    requires ActionOk(g, ap[x]) && ActionOk(g, ap[y])
    ensures var r := ResolveConflict(g, ap[x], ap[y]);
            && r.assertHolds
            && ap[x := r.x][y := r.y] == ap
            && Progress(g, o, ap, b, m, x, y + 1)
  {
    hide ResolveConflict, Live, Sorted, DeadOrSame, Unsettled, IsConflict, Winner;
    assert x < m;
    assert !Live(ap[x]);
    ResolvedStays(g, ap[x], ap[y]);
  }

  /** One comparison of the inner loop. */
  lemma ProgressStep(g: Grammar, o: seq<Action>, ap: seq<Action>, b: nat, m: nat, x: nat, y: nat) returns (m': nat)
    requires g.WellFormed() && ListOk(g, o) && ListsMatch(o, ap) && !AcceptClash(o)
    requires Progress(g, o, ap, b, m, x, y) && y < |o| && o[y].sp == o[x].sp
    requires ActionOk(g, ap[x]) && ActionOk(g, ap[y])
    ensures var r := ResolveConflict(g, ap[x], ap[y]);
            && r.assertHolds
            && ListsMatch(o, ap[x := r.x][y := r.y])
            && Progress(g, o, ap[x := r.x][y := r.y], b, m', x, y + 1)
  {
    hide ResolveConflict, Live, Sorted, GroupMet, DeadOrSame, AcceptClash;
    if Winner(g, o, b, m) == x {
      m' := m + 1;
      ProgressMeets(g, o, ap, b, x, y);
    } else {
      m' := m;
      ProgressIdle(g, o, ap, b, m, x, y);
    }
  }

  lemma WinnerStep(g: Grammar, o: seq<Action>, b: nat, m: nat)
    requires g.WellFormed() && b < m < |o| && forall i :: 0 <= i < |o| ==> ActionOk(g, o[i])
    ensures Winner(g, o, b, m + 1) == Winner(g, o, b, m) || Winner(g, o, b, m + 1) == m
  {
  }

  lemma NoClashAt(g: Grammar, o: seq<Action>, x: nat, y: nat)
    requires !AcceptClash(o) && x < y < |o| && o[x].sp == o[y].sp
    ensures o[x].typ != ACCEPT && o[y].typ != ACCEPT
  {
  }

  lemma MatchAt(g: Grammar, o: seq<Action>, ap: seq<Action>, k: nat)
    requires ListOk(g, o) && ListsMatch(o, ap) && k < |o|
    ensures ActionOk(g, ap[k]) && ap[k].sp == o[k].sp
  {
    assert DeadOrSame(o[k], ap[k]) && ActionOk(g, o[k]);
  }

  /** Whatever is compared, actions only die; they never change otherwise. */
  lemma ResolveOnlyKills(g: Grammar, o: seq<Action>, ap: seq<Action>, x: nat, y: nat)
    requires g.WellFormed() && ListOk(g, o) && ListsMatch(o, ap) && x < y < |o|
    requires ActionOk(g, ap[x]) && ActionOk(g, ap[y])
    ensures var r := ResolveConflict(g, ap[x], ap[y]); ListsMatch(o, ap[x := r.x][y := r.y])
  {
    hide ListOk;
    assert DeadOrSame(o[x], ap[x]) && DeadOrSame(o[y], ap[y]);
  }

  /** The group is through when its last member has had its turn. */
  lemma GroupDone(g: Grammar, o: seq<Action>, ap: seq<Action>, b: nat, m: nat, x: nat)
    requires g.WellFormed() && ListOk(g, o) && ListsMatch(o, ap)
    requires Progress(g, o, ap, b, m, x, x + 1) && (x + 1 == |o| || o[x + 1].sp != o[x].sp)
    ensures forall i :: b <= i <= x ==> GroupResolved(g, o, ap, i)
  {
    hide Winner, Sorted, ListOk, ListsMatch, GroupMet, GroupResolved;
    assert m == x + 1;
    forall i | b <= i <= x ensures GroupResolved(g, o, ap, i) {
      GroupDoneAt(g, o, ap, b, m, i);
    }
  }

  lemma GroupDoneAt(g: Grammar, o: seq<Action>, ap: seq<Action>, b: nat, m: nat, i: nat)
    requires g.WellFormed() && ListOk(g, o) && ListsMatch(o, ap) && b <= i < m <= |o| && GroupMet(g, o, ap, b, m)
    requires (b == 0 || o[b - 1].sp != o[b].sp) && (m == |o| || o[m].sp != o[b].sp) && forall k :: b <= k < m ==>
                o[k].sp == o[b].sp
    ensures GroupResolved(g, o, ap, i)
  {
    hide Winner, Sorted, ListOk, ListsMatch, Unsettled, IsConflict;
    GroupStartIs(o, b, i);
    GroupEndIs(o, i, m);
  }

  /** An accept that is compared with anything still live trips the assertion. */
  lemma AcceptFails(g: Grammar, x: Action, y: Action)
    requires g.WellFormed() && ActionOk(g, x) && ActionOk(g, y)
    requires Live(x) && Live(y) && (x.typ == ACCEPT || y.typ == ACCEPT)
    ensures !ResolveConflict(g, x, y).assertHolds
  {
  }

  ghost predicate NoAcceptAt(o: seq<Action>, x: nat) {
    x + 1 < |o| && o[x].sp == o[x + 1].sp ==> o[x].typ != ACCEPT && o[x + 1].typ != ACCEPT
  }

  /** One comparison. */
  method CompareOne(g: Grammar, ghost o: seq<Action>, ap: seq<Action>, x: nat, y: nat, ghost b: nat, ghost m: nat)
    returns (ap': seq<Action>, errcnt: nat, ok: bool, ghost m': nat)
    requires g.WellFormed() && ListOk(g, o) && ListsMatch(o, ap) && x < y < |o| && o[x].sp == o[y].sp
    requires !AcceptClash(o) ==> Progress(g, o, ap, b, m, x, y)
    ensures ListsMatch(o, ap')
    ensures forall k :: 0 <= k < |o| && k != x && k != y ==> ap'[k] == ap[k]
    ensures Conflicts(ap') == Conflicts(ap) + errcnt
    ensures !AcceptClash(o) ==> ok && Progress(g, o, ap', b, m', x, y + 1)
    ensures ok && ap[x] == o[x] && ap[y] == o[y] ==> o[x].typ != ACCEPT && o[y].typ != ACCEPT
  {
    MatchAt(g, o, ap, x);
    MatchAt(g, o, ap, y);
    ResolveOnlyKills(g, o, ap, x, y);
    assert Live(o[x]) && Live(o[y]);
    hide AcceptClash, Progress, ResolveConflict, ListOk, DeadOrSame;
    m' := m;
    if !AcceptClash(o) {
      m' := ProgressStep(g, o, ap, b, m, x, y);
    }
    if ap[x] == o[x] && ap[y] == o[y] && (o[x].typ == ACCEPT || o[y].typ == ACCEPT) {
      AcceptFails(g, ap[x], ap[y]);
    }
    ResolveCounts(g, ap, x, y);
    var r := ResolveConflict(g, ap[x], ap[y]);
    ap' := ap[x := r.x][y := r.y];
    errcnt, ok := r.errcnt, r.assertHolds;
  }

  /** The inner loop: `x` against the rest of its group. */
  method ResolveAgainst(g: Grammar, ghost o: seq<Action>, ap: seq<Action>, x: nat, ghost b: nat, ghost m: nat)
    returns (ap': seq<Action>, ghost y': nat, errcnt: nat, ok: bool, ghost m': nat)
    requires g.WellFormed() && ListOk(g, o) && ListsMatch(o, ap) && x < |o|
    requires !AcceptClash(o) ==> Progress(g, o, ap, b, m, x, x + 1)
    ensures ListsMatch(o, ap') && x < y' <= |o| && Conflicts(ap') == Conflicts(ap) + errcnt
    ensures forall k :: x < k < y' ==> o[k].sp == o[x].sp
    ensures y' < |o| ==> o[y'].sp != o[x].sp
    ensures forall k :: 0 <= k < |o| && o[k].sp != o[x].sp ==> ap'[k] == ap[k]
    ensures !AcceptClash(o) ==> ok && Progress(g, o, ap', b, m', x, y')
    ensures ok && (forall k :: x <= k < |o| ==> ap[k] == o[k]) ==> NoAcceptAt(o, x)
  {
    hide AcceptClash, Progress, ListOk, DeadOrSame;
    ap', errcnt, ok, m' := ap, 0, true, m;
    var y := x + 1;
    MatchAt(g, o, ap, x);
    if y < |o| { MatchAt(g, o, ap, y); }
    while y < |ap'| && ap'[y].sp == ap'[x].sp
      invariant x < y <= |o| && ListsMatch(o, ap') && Conflicts(ap') == Conflicts(ap) + errcnt
      invariant ap'[x].sp == o[x].sp && (y < |o| ==> ap'[y].sp == o[y].sp)
      invariant forall k :: x < k < y ==> o[k].sp == o[x].sp
      invariant y == x + 1 ==> ap' == ap
      invariant forall k :: 0 <= k < |o| && o[k].sp != o[x].sp ==> ap'[k] == ap[k]
      invariant !AcceptClash(o) ==> ok && Progress(g, o, ap', b, m', x, y)
      invariant ok && y > x + 1 && (forall k :: x <= k < |o| ==> ap[k] == o[k]) ==> NoAcceptAt(o, x)
    {
      var e, k;
      ap', e, k, m' := CompareOne(g, o, ap', x, y, b, m');
      errcnt := errcnt + e;
      ok := ok && k;
      y := y + 1;
      MatchAt(g, o, ap', x);
      if y < |o| { MatchAt(g, o, ap', y); }
    }
    y' := y;
  }

  // ---------------------------------------------------------------------------
  // The outer loop

  /** A new group begins at `x`, and nothing in it has been touched. */
  lemma ProgressBegin(g: Grammar, o: seq<Action>, ap: seq<Action>, x: nat)
    requires g.WellFormed() && ListOk(g, o) && ListsMatch(o, ap) && x < |o|
    requires x == 0 || o[x - 1].sp != o[x].sp
    requires forall k :: x <= k < |o| ==> ap[k] == o[k]
    ensures Progress(g, o, ap, x, x + 1, x, x + 1)
  {
    assert Winner(g, o, x, x + 1) == x;
  }

  /** The next member of the same group takes its turn. */
  lemma ProgressNext(g: Grammar, o: seq<Action>, ap: seq<Action>, b: nat, m: nat, x: nat, y: nat)
    requires g.WellFormed() && ListOk(g, o) && ListsMatch(o, ap)
    requires Progress(g, o, ap, b, m, x, y) && (y == |o| || o[y].sp != o[x].sp) && x + 1 < y
    ensures Progress(g, o, ap, b, m, x + 1, x + 2)
  {
  }

  lemma SortedBySymbol(g: Grammar, o: seq<Action>, i: nat, j: nat)
    requires ListOk(g, o) && i <= j < |o|
    ensures o[i].sp <= o[j].sp
  {
    if i < j { assert ActionCmp(o[i], o[j]) <= 0; }
  }

  lemma ResolvedKeeps(g: Grammar, o: seq<Action>, before: seq<Action>, ap: seq<Action>, i: nat)
    requires g.WellFormed() && ListOk(g, o) && ListsMatch(o, before) && ListsMatch(o, ap)
    requires i < |o| && ap[i] == before[i] && GroupResolved(g, o, before, i)
    ensures GroupResolved(g, o, ap, i)
  {
  }

  /** After x's turn: on with the group, or with the next one. */
  lemma AfterTurn(g: Grammar, o: seq<Action>, before: seq<Action>, ap: seq<Action>, b: nat, m: nat, x: nat, y: nat)
    returns (b': nat, m': nat)
    requires g.WellFormed() && ListOk(g, o) && ListsMatch(o, before) && ListsMatch(o, ap)
    requires Progress(g, o, ap, b, m, x, y) && (y == |o| || o[y].sp != o[x].sp)
    requires forall i :: 0 <= i < b ==> GroupResolved(g, o, before, i)
    requires forall k :: 0 <= k < |o| && o[k].sp != o[x].sp ==> ap[k] == before[k]
    requires forall k :: x < k < |o| && o[k].sp != o[x].sp ==> ap[k] == o[k]
    ensures x + 1 < |o| ==> Progress(g, o, ap, b', m', x + 1, x + 2)
    ensures if x + 1 < |o| then b' <= x + 1 else b' == |o|
    ensures forall i :: 0 <= i < b' ==> GroupResolved(g, o, ap, i)
  {
    hide DeadOrSame, ListOk, GroupResolved, GroupMet, Winner;
    forall i | 0 <= i < b ensures GroupResolved(g, o, ap, i) {
      SortedBySymbol(g, o, i, b - 1);
      SortedBySymbol(g, o, b - 1, b);
      ResolvedKeeps(g, o, before, ap, i);
    }
    hide Progress;
    if x + 1 < y {
      b', m' := b, m;
      ProgressNext(g, o, ap, b, m, x, y);
    } else {
      GroupDone(g, o, ap, b, m, x);
      b', m' := x + 1, x + 2;
      if x + 1 < |o| {
        forall k | x + 1 <= k < |o| ensures ap[k] == o[k] {
          SortedBySymbol(g, o, x, x + 1);
          SortedBySymbol(g, o, x + 1, k);
        }
        ProgressBegin(g, o, ap, x + 1);
      }
    }
  }

  /** Members of groups not yet begun are untouched. */
  ghost predicate Untouched(o: seq<Action>, ap: seq<Action>, x: nat)
    requires |ap| == |o|
  {
    forall k :: x <= k < |o| && (0 < x <= |o| ==> o[k].sp != o[x - 1].sp) ==> ap[k] == o[k]
  }

  predicate BeginsGroup(o: seq<Action>, k: nat) {
    k < |o| && (k == 0 || o[k - 1].sp != o[k].sp)
  }

  ghost predicate AcceptsAlone(o: seq<Action>, x: nat) {
    forall k :: 0 <= k < x && BeginsGroup(o, k) ==> NoAcceptAt(o, k)
  }

  ghost predicate ResolvedBelow(g: Grammar, o: seq<Action>, ap: seq<Action>, b: nat)
    requires g.WellFormed() && ListOk(g, o) && ListsMatch(o, ap)
  {
    b <= |o| && forall i :: 0 <= i < b ==> GroupResolved(g, o, ap, i)
  }

  lemma TurnUntouched(g: Grammar, o: seq<Action>, before: seq<Action>, ap: seq<Action>, x: nat)
    requires ListOk(g, o) && |before| == |ap| == |o| && x < |o| && Untouched(o, before, x)
    requires forall k :: 0 <= k < |o| && o[k].sp != o[x].sp ==> ap[k] == before[k]
    ensures Untouched(o, ap, x + 1)
    ensures forall k :: x < k < |o| && o[k].sp != o[x].sp ==> ap[k] == o[k]
    ensures BeginsGroup(o, x) ==> forall k :: x <= k < |o| ==> before[k] == o[k]
  {
    forall k | x <= k < |o| ensures o[x].sp <= o[k].sp && (x > 0 ==> o[x - 1].sp <= o[x].sp) {
      SortedBySymbol(g, o, x, k);
      if x > 0 { SortedBySymbol(g, o, x - 1, x); }
    }
  }

  /** One turn of the outer loop. */
  method Turn(g: Grammar, ghost o: seq<Action>, ap: seq<Action>, x: nat, ghost b: nat, ghost m: nat)
    returns (ap': seq<Action>, errcnt: nat, ok: bool, ghost b': nat, ghost m': nat)
    requires g.WellFormed() && ListOk(g, o) && ListsMatch(o, ap) && x < |o| && Untouched(o, ap, x)
    requires !AcceptClash(o) ==> Progress(g, o, ap, b, m, x, x + 1) && ResolvedBelow(g, o, ap, b)
    ensures ListsMatch(o, ap') && Untouched(o, ap', x + 1) && Conflicts(ap') == Conflicts(ap) + errcnt
    ensures !AcceptClash(o) ==> ok && ResolvedBelow(g, o, ap', b')
    ensures !AcceptClash(o) ==> if x + 1 < |o| then Progress(g, o, ap', b', m', x + 1, x + 2) else b' == |o|
    ensures ok && BeginsGroup(o, x) ==> NoAcceptAt(o, x)
  {
    hide AcceptClash, Progress, ListOk, DeadOrSame, GroupResolved, NoAcceptAt, BeginsGroup, Untouched;
    ghost var y;
    ap', y, errcnt, ok, m' := ResolveAgainst(g, o, ap, x, b, m);
    TurnUntouched(g, o, ap, ap', x);
    b' := 0;
    if !AcceptClash(o) {
      b', m' := AfterTurn(g, o, ap, ap', b, m', x, y);
    }
  }

  lemma ListBegins(g: Grammar, o: seq<Action>)
    requires g.WellFormed() && ListOk(g, o)
    ensures ListsMatch(o, o) && Conflicts(o) == 0
    ensures |o| > 0 ==> Progress(g, o, o, 0, 1, 0, 1)
  {
    NoConflictsYet(o);
    if |o| > 0 { ProgressBegin(g, o, o, 0); }
  }

  /** All actions of one state: sorted, then each against those after it with the
      same symbol. If no accept shares its symbol, no assertion fails and each
      symbol keeps its champion. */
  method ResolveList(g: Grammar, o: seq<Action>) returns (ap: seq<Action>, nconflict: nat, ok: bool)
    requires g.WellFormed() && ListOk(g, o)
    ensures ListsMatch(o, ap) && nconflict == Conflicts(ap)
    ensures !AcceptClash(o) ==> ok && ResolvedBelow(g, o, ap, |o|)
    ensures ok ==> AcceptsAlone(o, |o|)
  {
    hide AcceptClash, Progress, ListOk, DeadOrSame, GroupResolved, NoAcceptAt, BeginsGroup, Conflicts;
    ap, nconflict, ok := o, 0, true;
    ghost var b: nat, m: nat := 0, 1;
    ListBegins(g, o);
    for x := 0 to |o|
      invariant ListsMatch(o, ap) && Untouched(o, ap, x) && nconflict == Conflicts(ap)
      invariant !AcceptClash(o) ==> ok && ResolvedBelow(g, o, ap, b)
      invariant !AcceptClash(o) ==> if x < |o| then Progress(g, o, ap, b, m, x, x + 1) else b == |o|
      invariant ok ==> AcceptsAlone(o, x)
    {
      var e, holds;
      ap, e, holds, b, m := Turn(g, o, ap, x, b, m);
      nconflict := nconflict + e;
      ok := ok && holds;
    }
  }

  // ---------------------------------------------------------------------------
  // What is left of each group

  ghost predicate LiveOnce(ap: seq<Action>) {
    forall i, j :: 0 <= i < j < |ap| && Live(ap[i]) && Live(ap[j]) ==> ap[i].sp != ap[j].sp
  }

  lemma SameGroup(g: Grammar, o: seq<Action>, i: nat, j: nat)
    requires ListOk(g, o) && i <= j < |o| && o[i].sp == o[j].sp
    ensures GroupStart(o, i) == GroupStart(o, j) && GroupEnd(o, i) == GroupEnd(o, j)
    decreases j - i
  {
    hide ListOk;
    if i < j {
      SortedBySymbol(g, o, i, i + 1);
      SortedBySymbol(g, o, i + 1, j);
      SameGroup(g, o, i + 1, j);
    }
  }

  lemma {:induction false} GroupWithin(o: seq<Action>, i: nat, k: nat)
    requires i < |o| && GroupStart(o, i) <= k <= i
    ensures o[k].sp == o[i].sp
    decreases i
  {
    if k < i { GroupWithin(o, i - 1, k); }
  }

  lemma {:induction false} GroupWithinEnd(o: seq<Action>, i: nat, k: nat)
    requires i < |o| && i <= k < GroupEnd(o, i)
    ensures o[k].sp == o[i].sp
    decreases |o| - i
  {
    if i < k { GroupWithinEnd(o, i + 1, k); }
  }

  /** Each symbol that had an action keeps exactly one. */
  lemma ExactlyOneLive(g: Grammar, o: seq<Action>, ap: seq<Action>, i: nat)
    requires g.WellFormed() && ListOk(g, o) && ListsMatch(o, ap) && ResolvedBelow(g, o, ap, |o|) && i < |o|
    ensures var w := Winner(g, o, GroupStart(o, i), GroupEnd(o, i)); o[w].sp == o[i].sp && ap[w] == o[w] && Live(ap[w])
    ensures forall j :: 0 <= j < |o| && o[j].sp == o[i].sp && Live(ap[j]) ==>
                j == Winner(g, o, GroupStart(o, i), GroupEnd(o, i))
  {
    var w := Winner(g, o, GroupStart(o, i), GroupEnd(o, i));
    if w <= i { GroupWithin(o, i, w); SameGroup(g, o, w, i); } else { GroupWithinEnd(o, i, w); SameGroup(g, o, i, w); }
    assert GroupResolved(g, o, ap, w) && DeadOrSame(o[w], ap[w]);
    forall j | 0 <= j < |o| && o[j].sp == o[i].sp && Live(ap[j]) ensures j == w {
      assert GroupResolved(g, o, ap, j);
      if j <= i { SameGroup(g, o, j, i); } else { SameGroup(g, o, i, j); }
    }
  }

  lemma ResolvedLiveOnce(g: Grammar, o: seq<Action>, ap: seq<Action>)
    requires g.WellFormed() && ListOk(g, o) && ListsMatch(o, ap) && ResolvedBelow(g, o, ap, |o|)
    ensures LiveOnce(ap)
  {
    forall i, j | 0 <= i < j < |ap| && Live(ap[i]) && Live(ap[j]) ensures ap[i].sp != ap[j].sp {
      MatchAt(g, o, ap, i);
      MatchAt(g, o, ap, j);
      ExactlyOneLive(g, o, ap, i);
    }
  }

  // ---------------------------------------------------------------------------
  // The candidates of a state

  ghost predicate Candidate(g: Grammar, a: Automaton, look: Lookaheads, s: nat, x: Action)
    requires s < |a|
  {
    || (x.typ == SHIFT && x.sp in a[s].trans && a[s].trans[x.sp] == x.arg)
    || (x.typ == REDUCE && x.arg < |g.rules| && x.sp < g.nterminal &&
      Reduces(g, a, look, s, CompleteItem(g, x.arg), x.sp))
    || (x.typ == ACCEPT && s == 0 && x.sp == g.start && x.arg == 0)
  }

  /** The reduces of one completed configuration, one for each lookahead token. */
  method AddReduces(nterminal: nat, ap: seq<Action>, fws: set<nat>, r: nat) returns (ap': seq<Action>)
    requires NoDup(ap) && forall x :: x in ap ==> !(x.typ == REDUCE && x.arg == r)
    ensures NoDup(ap')
    ensures forall x :: x in ap' <==> x in ap || (x.typ == REDUCE && x.arg == r && x.sp < nterminal && x.sp in fws)
  {
    ap' := ap;
    for j := 0 to nterminal
      invariant NoDup(ap')
      invariant forall x :: x in ap' <==> x in ap || (x.typ == REDUCE && x.arg == r && x.sp < j && x.sp in fws)
    {
      if j in fws {
        assert Action(j, REDUCE, r) !in ap';
        ap' := [Action(j, REDUCE, r)] + ap';
      }
    }
  }

  ghost predicate ReduceIn(g: Grammar, its: seq<Item>, look: map<Item, set<nat>>, x: Action) {
    && x.typ == REDUCE && x.arg < |g.rules| && x.sp < g.nterminal
    && CompleteItem(g, x.arg) in its && CompleteItem(g, x.arg) in look && x.sp in look[CompleteItem(g, x.arg)]
  }

  method AllReduces(g: Grammar, st: State, look: map<Item, set<nat>>) returns (ap: seq<Action>)
    requires NoDup(st.ap) && NoDup(st.cfp) && forall x :: x in st.ap ==> x.typ == SHIFT
    requires forall it :: it in st.cfp ==> ItemOk(g, it) && it in look
    ensures NoDup(ap) && forall x :: x in ap <==> x in st.ap || ReduceIn(g, st.cfp, look, x)
  {
    ap := st.ap;
    for i := 0 to |st.cfp|
      invariant NoDup(ap)
      invariant forall x :: x in ap <==> x in st.ap || ReduceIn(g, st.cfp[..i], look, x)
    {
      var cfp := st.cfp[i];
      assert st.cfp[..i + 1] == st.cfp[..i] + [cfp];
      assert cfp in st.cfp && cfp !in st.cfp[..i];
      if |g.rules[cfp.rule].rhs| == cfp.dot {
        assert cfp == CompleteItem(g, cfp.rule);
        ap := AddReduces(g.nterminal, ap, look[cfp], cfp.rule);
      }
    }
    assert st.cfp[..|st.cfp|] == st.cfp;
  }

  method StateActions(g: Grammar, st: State, look: map<Item, set<nat>>, isFirst: bool) returns (ap: seq<Action>)
    requires NoDup(st.ap) && NoDup(st.cfp) && forall x :: x in st.ap ==> x.typ == SHIFT
    requires forall it :: it in st.cfp ==> ItemOk(g, it) && it in look
    ensures NoDup(ap)
    ensures forall x :: x in ap <==>
                        x in st.ap || ReduceIn(g, st.cfp, look, x) || (isFirst && x == Action(g.start, ACCEPT, 0))
  {
    ap := AllReduces(g, st, look);
    if isFirst {
      assert Action(g.start, ACCEPT, 0) !in ap;
      ap := [Action(g.start, ACCEPT, 0)] + ap;
    }
  }

  // ---------------------------------------------------------------------------
  // FindActions

  ghost predicate CandidateList(g: Grammar, a: Automaton, look: Lookaheads, s: nat, o: seq<Action>)
    requires s < |a|
  {
    NoDup(o) && ListOk(g, o) && forall x :: x in o <==> Candidate(g, a, look, s, x)
  }

  /** The state's list after resolution: the candidates, sorted, of which each
      symbol has kept its champion alive. */
  ghost predicate ResolvedFrom(g: Grammar, a: Automaton, look: Lookaheads, s: nat, ap: seq<Action>)
    requires g.WellFormed() && s < |a|
  {
    exists o :: CandidateList(g, a, look, s, o) && ListsMatch(o, ap) && ResolvedBelow(g, o, ap, |o|)
  }

  ghost predicate LookDomain(g: Grammar, states: seq<State>, look: Lookaheads) {
    && |look| == |states|
    && forall s, it :: 0 <= s < |states| && it in states[s].cfp ==> it in look[s] && forall t :: t in look[s][it] ==>
      t < g.nterminal
  }

  lemma ShiftsExact(g: Grammar, lambda: set<nat>, first: seq<set<nat>>, states: seq<State>, s: nat, x: Action)
    requires Constructed(g, lambda, first, states) && s < |states|
    ensures x in states[s].ap <==>
            x.typ == SHIFT && x.sp in TransOf(states[s].ap) && TransOf(states[s].ap)[x.sp] == x.arg
  {
    hide StateBuilt, IsCanonical, BackLinksExact;
    TransOfExact(states[s].ap, x.sp, x.arg);
    assert x.typ == SHIFT ==> x == Action(x.sp, SHIFT, x.arg);
  }

  lemma CandidateExact(g: Grammar, lambda: set<nat>, first: seq<set<nat>>, states: seq<State>, look: Lookaheads, s: nat,
                       x: Action)
    requires Constructed(g, lambda, first, states) && LookDomain(g, states, look) && s < |states|
    ensures (x in states[s].ap || ReduceIn(g, states[s].cfp, look[s], x) || (s == 0 && x == Action(g.start, ACCEPT, 0)))
            <==> Candidate(g, Abstract(states), look, s, x)
  {
    hide Constructed;
    ShiftsExact(g, lambda, first, states, s, x);
    if x.typ == REDUCE && x.arg < |g.rules| {
      var it := CompleteItem(g, x.arg);
      assert it in states[s].cfp <==> it in Abstract(states)[s].items;
    }
  }

  lemma CandidateOk(g: Grammar, a: Automaton, look: Lookaheads, s: nat, x: Action)
    requires g.WellFormed() && s < |a| && StateOk(g, a, s) && Candidate(g, a, look, s, x)
    ensures ActionOk(g, x) && Live(x) && x.typ != ERROR
  {
    if x.typ == SHIFT {
      var it :| it in a[s].items && ShiftsOn(g, it, x.sp);
      assert g.RuleOk(g.rules[it.rule]);
    }
  }

  lemma SortedCandidates(g: Grammar, a: Automaton, look: Lookaheads, s: nat, ap: seq<Action>)
    requires g.WellFormed() && s < |a| && StateOk(g, a, s)
    requires NoDup(ap) && forall x :: x in ap <==> Candidate(g, a, look, s, x)
    ensures CandidateList(g, a, look, s, StableSort(ActionCmp, ap))
  {
    var o := StableSort(ActionCmp, ap);
    ActionCmpPreorder();
    StableSortSame(ActionCmp, ap);
    StableSortSorted(ActionCmp, ap);
    forall i | 0 <= i < |o| ensures ActionOk(g, o[i]) && Live(o[i]) && o[i].typ != ERROR {
      assert o[i] in o;
      CandidateOk(g, a, look, s, o[i]);
    }
  }

  /** An accept has company exactly if the start symbol can be shifted in the
      first state, and then an assertion fails. */
  lemma ClashIsStart(g: Grammar, a: Automaton, look: Lookaheads, s: nat, o: seq<Action>)
    requires g.WellFormed() && s < |a| && CandidateList(g, a, look, s, o)
    ensures AcceptClash(o) <==> s == 0 && g.start in a[0].trans
    ensures AcceptClash(o) ==> !AcceptsAlone(o, |o|)
  {
    if AcceptClash(o) {
      var i, j :| 0 <= i < |o| && 0 <= j < |o| && i != j && o[i].sp == o[j].sp && o[i].typ == ACCEPT;
      assert o[i] in o && o[j] in o;
      assert o[i] == Action(g.start, ACCEPT, 0);
      assert o[j] != o[i];
      assert o[j] == Action(g.start, SHIFT, a[0].trans[g.start]);
      ClashAdjacent(g, a, look, o, i, j);
    }
    if s == 0 && g.start in a[0].trans {
      var x, y := Action(g.start, ACCEPT, 0), Action(g.start, SHIFT, a[0].trans[g.start]);
      assert Candidate(g, a, look, s, x) && Candidate(g, a, look, s, y);
      var i :| 0 <= i < |o| && o[i] == x;
      var j :| 0 <= j < |o| && o[j] == y;
    }
  }

  lemma ClashAdjacent(g: Grammar, a: Automaton, look: Lookaheads, o: seq<Action>, i: nat, j: nat)
    requires g.WellFormed() && |a| > 0 && CandidateList(g, a, look, 0, o) && i < |o| && j < |o|
    requires g.start in a[0].trans && o[i] == Action(g.start, ACCEPT, 0)
    requires o[j] == Action(g.start, SHIFT, a[0].trans[g.start])
    ensures i == j + 1 && BeginsGroup(o, j) && !NoAcceptAt(o, j)
  {
    forall k | 0 <= k < |o| && o[k].sp == g.start ensures k == i || k == j {
      assert o[k] in o;
      assert Candidate(g, a, look, 0, o[k]);
      assert o[k] == o[i] || o[k] == o[j];
    }
    assert i < j ==> ActionCmp(o[i], o[j]) <= 0;
    SortedBySymbol(g, o, j, j + 1);
    SortedBySymbol(g, o, j + 1, i);
  }

  /** One state: candidates, sorted and resolved. */
  method ResolveState(g: Grammar, ghost lambda: set<nat>, ghost first: seq<set<nat>>, states: seq<State>,
                      look: Lookaheads, s: nat)
    returns (ap: seq<Action>, nconflict: nat, ok: bool)
    requires g.WellFormed() && Constructed(g, lambda, first, states) && LookDomain(g, states, look) && s < |states|
    ensures ok <==> !(s == 0 && g.start in Abstract(states)[0].trans)
    ensures nconflict == Conflicts(ap)
    ensures ok ==> ResolvedFrom(g, Abstract(states), look, s, ap)
  {
    BuiltAt(g, lambda, first, states, s);
    assert NoDup(states[s].ap) && forall x :: x in states[s].ap ==> x.typ == SHIFT;
    hide Constructed, StateOk, IsClosure, SeedsExact, LinksExact;
    var all := StateActions(g, states[s], look[s], s == 0);
    forall x ensures x in all <==> Candidate(g, Abstract(states), look, s, x) {
      CandidateExact(g, lambda, first, states, look, s, x);
    }
    SortedCandidates(g, Abstract(states), look, s, all);
    var o := StableSort(ActionCmp, all);
    ap, nconflict, ok := ResolveList(g, o);
    ClashIsStart(g, Abstract(states), look, s, o);
  }

  method FindActions(g: Grammar, ghost lambda: set<nat>, ghost first: seq<set<nat>>, states: seq<State>,
                     look: Lookaheads)
    returns (aps: seq<seq<Action>>, nconflict: nat, ok: bool)
    requires g.WellFormed() && Constructed(g, lambda, first, states) && LookDomain(g, states, look)
    ensures |aps| == |states| && nconflict == AllConflicts(aps)
    ensures ok <==> g.start !in Abstract(states)[0].trans
    ensures ok ==> forall s :: 0 <= s < |states| ==> ResolvedFrom(g, Abstract(states), look, s, aps[s])
  {
    hide Constructed, ResolvedFrom;
    aps, nconflict, ok := [], 0, true;
    assert |states| > 0 by { NonEmpty(g, lambda, first, states); }
    for s := 0 to |states|
      invariant |aps| == s && nconflict == AllConflicts(aps)
      invariant s > 0 ==> (ok <==> g.start !in Abstract(states)[0].trans)
      invariant s == 0 ==> ok
      invariant ok ==> forall k :: 0 <= k < s ==> ResolvedFrom(g, Abstract(states), look, k, aps[k])
    {
      var ap, n, holds := ResolveState(g, lambda, first, states, look, s);
      assert (aps + [ap])[..s] == aps;
      aps := aps + [ap];
      nconflict := nconflict + n;
      ok := ok && holds;
    }
  }

  lemma NonEmpty(g: Grammar, lambda: set<nat>, first: seq<set<nat>>, states: seq<State>)
    requires Constructed(g, lambda, first, states)
    ensures |states| > 0
  {
  }
}
