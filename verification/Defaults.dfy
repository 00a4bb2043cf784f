/** What default reductions change: nothing, as long as there is no error. The
    parser of the compressed lists goes step by step through the run of the
    parser of the plain ones, up to the numbering of the states. */
module Defaults {
  import opened Options
  import opened Grammars
  import opened Automata
  import opened ActionLists
  import opened Actions
  import opened Compress
  import opened TableBuilder
  import opened Driver
  import opened Completeness
  import opened Generator

  /** An action code under another numbering `f` of the states. */
  function Recoded(f: seq<nat>, v: int): int {
    if 0 <= v < |f| then f[v] else v
  }

  /** Wherever `t` has an action that is not an error, `u` has the same one. */
  ghost predicate Simulates(g: Grammar, t: Tables, u: Tables, f: seq<nat>) {
    && |f| == t.nstate == u.nstate && |f| > 0 && f[0] == 0 && (forall i :: 0 <= i < |f| ==> f[i] < |f|)
    && t.nrule == u.nrule && t.ruleInfo == u.ruleInfo
    && (forall r :: 0 <= r < |t.ruleInfo| ==> t.ruleInfo[r].0 < g.NSymbol())
    && (forall i, tok :: 0 <= i < |f| && 0 <= tok < g.nterminal ==> SameOnToken(t, u, f, i, tok))
    && (forall i, x :: 0 <= i < |f| && 0 <= x < g.NSymbol() ==> SameGoto(t, u, f, i, x))
  }

  ghost predicate SameOnToken(t: Tables, u: Tables, f: seq<nat>, i: nat, tok: nat)
    requires i < |f|
  {
    var v := FindShiftAction(t, i, tok);
    v.Some? && (v.value != ErrorAction(t) ==> FindShiftAction(u, f[i], tok) == Some(Recoded(f, v.value)))
  }

  ghost predicate SameGoto(t: Tables, u: Tables, f: seq<nat>, i: nat, x: nat)
    requires i < |f|
  {
    match FindReduceAction(t, i, x)
    case None => FindReduceAction(u, f[i], x) == None
    case Some(v) => FindReduceAction(u, f[i], x) == Some(Recoded(f, v))
  }

  // ---------------------------------------------------------------------------
  // Tables of plain and of compressed lists

  ghost predicate AllCompressed(g: Grammar, a: Automaton, look: Lookaheads, aps: seq<seq<Action>>,
                                bps: seq<seq<Action>>) {
    && g.WellFormed() && |aps| == |bps| && AllResolved(g, a, look, aps)
    && forall s :: 0 <= s < |aps| ==> Compressed(g, aps[s], bps[s])
  }

  /** From a state's number in one table to its number in the other. */
  function Between(order: seq<nat>, num': seq<nat>): seq<nat>
    requires |order| == |num'| && forall i :: 0 <= i < |order| ==> order[i] < |num'|
  {
    seq(|order|, i requires 0 <= i < |order| => num'[order[i]])
  }

  lemma CodeBetween(g: Grammar, order: seq<nat>, num: seq<nat>, order': seq<nat>, num': seq<nat>, x: Action)
    requires IsRenumbering(order, num) && IsRenumbering(order', num') && |order| == |order'|
    ensures Recoded(Between(order, num'), ComputeAction(g, num, x)) == ComputeAction(g, num', x)
  {
    if x.typ == SHIFT && x.arg < |num| {
      assert order[num[x.arg]] == x.arg;
    }
  }

  /** A symbol's action in a plain list and in its compression. */
  lemma CompressedAnswers(g: Grammar, a: Automaton, look: Lookaheads, s: nat, ap: seq<Action>, bp: seq<Action>,
                          y: Action)
    requires g.WellFormed() && s < |a| && ResolvedFrom(g, a, look, s, ap) && Compressed(g, ap, bp) && y in ap && Live(y)
    ensures LiveOnce(bp)
    ensures y in bp || (y.typ == REDUCE && !HasLive(bp, y.sp) && DefaultOf(g, |a|, bp) == y.arg + |a|)
  {
    ResolvedGives(g, a, look, s, ap);
    hide ResolvedFrom, Grammar.WellFormed, Candidate;
    var rbest :| IsBest(g, ap, rbest) && CompressedBy(g, ap, bp, rbest);
    if rbest.Some? {
      StillAnswers(g, ap, bp, rbest.value, y);
      if y !in bp {
        DefaultIsBest(g, |a|, ap, bp, rbest.value);
      }
    }
  }

  lemma TokensAgree(g: Grammar, a: Automaton, look: Lookaheads, aps: seq<seq<Action>>, bps: seq<seq<Action>>,
                    order: seq<nat>, num: seq<nat>, t: Tables, order': seq<nat>, num': seq<nat>, u: Tables, i: nat,
                    tok: nat)
    requires AllCompressed(g, a, look, aps, bps) && BuiltFrom(g, aps, order, num, t)
    requires BuiltFrom(g, bps, order', num', u)
    requires i < |aps| && tok < g.nterminal
    ensures SameOnToken(t, u, Between(order, num'), i, tok)
  {
    hide ResolvedFrom, Compressed, FindShiftAction, FindReduceAction, DefaultOf, LiveOnce, SetFor;
    var s, lists, lists' := order[i], Reordered(aps, order, num), Reordered(bps, order', num');
    var k := num'[s];
    assert order'[k] == s && lists[i] == aps[s] && lists'[k] == bps[s];
    ResolvedGives(g, a, look, s, aps[s]);
    TokenAnswer(g, num, lists, t, i, tok);
    if HasLive(aps[s], tok) {
      var y :| y in aps[s] && Live(y) && y.sp == tok;
      CompressedAnswers(g, a, look, s, aps[s], bps[s], y);
      TokenAnswer(g, num', lists', u, k, tok);
      CodeBetween(g, order, num, order', num', y);
    } else {
      PlainHasNoDefault(g, |a|, aps[s]);
    }
  }

  lemma GotosAgree(g: Grammar, a: Automaton, look: Lookaheads, aps: seq<seq<Action>>, bps: seq<seq<Action>>,
                   order: seq<nat>, num: seq<nat>, t: Tables, order': seq<nat>, num': seq<nat>, u: Tables, i: nat,
                   x: nat)
    requires AllCompressed(g, a, look, aps, bps) && BuiltFrom(g, aps, order, num, t)
    requires BuiltFrom(g, bps, order', num', u)
    requires i < |aps| && x < g.NSymbol()
    ensures SameGoto(t, u, Between(order, num'), i, x)
  {
    hide ResolvedFrom, FindShiftAction, FindReduceAction, DefaultOf, LiveOnce, SetFor, IsBest;
    var s, lists, lists' := order[i], Reordered(aps, order, num), Reordered(bps, order', num');
    var k := num'[s];
    assert order'[k] == s && lists[i] == aps[s] && lists'[k] == bps[s];
    var ap, bp := aps[s], bps[s];
    ResolvedGives(g, a, look, s, ap);
    assert Compressed(g, ap, bp);
    var rbest :| IsBest(g, ap, rbest) && CompressedBy(g, ap, bp, rbest);
    if y :| y in ap && OfKind(g, false, y) && y.sp == x {
      assert Candidate(g, a, look, s, y);
      assert y in bp;
      SetForAction(g, num, false, ap, y);
      SetForAction(g, num', false, bp, y);
      CodeBetween(g, order, num, order', num', y);
    } else {
      SetForNone(g, num, false, ap, x);
      SetForNone(g, num', false, bp, x);
    }
  }

  /** Compressing keeps every action that is not an error. */
  lemma CompressionSimulates(g: Grammar, a: Automaton, look: Lookaheads, aps: seq<seq<Action>>, bps: seq<seq<Action>>,
                             order: seq<nat>, num: seq<nat>, t: Tables, order': seq<nat>, num': seq<nat>, u: Tables)
    requires AllCompressed(g, a, look, aps, bps) && BuiltFrom(g, aps, order, num, t)
    requires BuiltFrom(g, bps, order', num', u)
    ensures Simulates(g, t, u, Between(order, num'))
  {
    var f := Between(order, num');
    hide AllCompressed, SameOnToken, SameGoto, FindShiftAction, FindReduceAction;
    assert |aps| == |bps| by { assert AllCompressed(g, a, look, aps, bps); }
    assert t.ruleInfo == u.ruleInfo;
    assert g.WellFormed();
    forall r | 0 <= r < |t.ruleInfo| ensures t.ruleInfo[r].0 < g.NSymbol() {
      assert g.RuleOk(g.rules[r]);
    }
    forall i, tok | 0 <= i < |f| && 0 <= tok < g.nterminal ensures SameOnToken(t, u, f, i, tok) {
      TokensAgree(g, a, look, aps, bps, order, num, t, order', num', u, i, tok);
    }
    forall i, x | 0 <= i < |f| && 0 <= x < g.NSymbol() ensures SameGoto(t, u, f, i, x) {
      GotosAgree(g, a, look, aps, bps, order, num, t, order', num', u, i, x);
    }
  }

  // ---------------------------------------------------------------------------
  // Whole runs

  ghost predicate StatesIn(f: seq<nat>, stack: seq<Entry>) {
    forall i :: 0 <= i < |stack| ==> stack[i].stateno < |f|
  }

  function RenamedStack(f: seq<nat>, stack: seq<Entry>): seq<Entry> {
    seq(|stack|, i requires 0 <= i < |stack| =>
      stack[i].(stateno := if stack[i].stateno < |f| then f[stack[i].stateno] else 0))
  }

  function Renamed(f: seq<nat>, p: Parser): Parser {
    p.(stack := RenamedStack(f, p.stack))
  }

  ghost predicate NoSyntaxError(log: seq<Event>) {
    forall i :: 0 <= i < |log| ==> !log[i].SyntaxError?
  }

  lemma RenamedSlices(f: seq<nat>, stack: seq<Entry>, base: nat)
    requires base <= |stack|
    ensures Minors(RenamedStack(f, stack)[base..]) == Minors(stack[base..])
    ensures RenamedStack(f, stack)[..base] == RenamedStack(f, stack[..base])
  {
    var es, fs := stack[base..], RenamedStack(f, stack)[base..];
    assert |fs| == |es| && forall i :: 0 <= i < |es| ==> Minors(fs)[i] == Minors(es)[i];
  }

  lemma RenamedReduce(g: Grammar, t: Tables, u: Tables, f: seq<nat>, depth: nat, p: Parser, r: nat)
    requires Simulates(g, t, u, f) && StatesIn(f, p.stack) && Reduce(t, depth, p, r).Some?
    ensures var q := Reduce(t, depth, p, r).value;
            StatesIn(f, q.stack) && Reduce(u, depth, Renamed(f, p), r) == Some(Renamed(f, q)) && q.errcnt == p.errcnt
  {
    hide SameOnToken, FindShiftAction, FindReduceAction;
    var (lhs, size) := t.ruleInfo[r];
    var base := |p.stack| - size;
    var p' := Renamed(f, p);
    assert SameGoto(t, u, f, p.stack[base - 1].stateno, lhs);
    RenamedSlices(f, p.stack, base);
    assert RenamedStack(f, []) == [];
    var v := FindReduceAction(t, p.stack[base - 1].stateno, lhs).value;
    if v < t.nstate && base < depth {
      var e := Entry(v, lhs, Branch(r, Minors(p.stack[base..])));
      assert RenamedStack(f, p.stack[..base] + [e]) == RenamedStack(f, p.stack[..base]) + [e.(stateno := f[v])];
    }
  }

  lemma ErrorIsLogged(t: Tables, depth: nat, p: Parser, major: nat)
    requires p.stack != [] && p.errcnt <= 0
    requires FindShiftAction(t, p.stack[|p.stack| - 1].stateno, major) == Some(ErrorAction(t))
    ensures var o := Iterate(t, depth, p, major); !o.Abort? && !NoSyntaxError(o.parser.log)
  {
    var log := Iterate(t, depth, p, major).parser.log;
    assert log[|p.log|] == SyntaxError(major);
  }

  /** One turn that meets no error. */
  lemma RenamedIterate(g: Grammar, t: Tables, u: Tables, f: seq<nat>, depth: nat, p: Parser, major: nat)
    requires Simulates(g, t, u, f) && StatesIn(f, p.stack) && p.stack != [] && major < g.nterminal && p.errcnt <= 0
    requires !Iterate(t, depth, p, major).Abort? && NoSyntaxError(Iterate(t, depth, p, major).parser.log)
    ensures var o := Iterate(t, depth, p, major);
            StatesIn(f, o.parser.stack) && o.parser.errcnt <= 0
            && Iterate(u, depth, Renamed(f, p), major) == o.(parser := Renamed(f, o.parser))
  {
    hide SameGoto, FindShiftAction, FindReduceAction, Reduce;
    var n, p' := |p.stack| - 1, Renamed(f, p);
    var s := p.stack[n].stateno;
    assert SameOnToken(t, u, f, s, major);
    var v := FindShiftAction(t, s, major).value;
    if v == ErrorAction(t) {
      ErrorIsLogged(t, depth, p, major);
    } else if v < t.nstate {
      if n + 1 < depth {
        var e := Entry(v, major, Leaf(major));
        assert RenamedStack(f, p.stack + [e]) == p'.stack + [e.(stateno := f[v])];
      }
    } else if v < t.nstate + t.nrule {
      RenamedReduce(g, t, u, f, depth, p, v - t.nstate);
    }
  }

  lemma RenamedStep(g: Grammar, t: Tables, u: Tables, f: seq<nat>, depth: nat, input: seq<nat>, p: Parser)
    requires Simulates(g, t, u, f) && InputOk(g, input) && StatesIn(f, p.stack) && p.errcnt <= 0
    requires Step(t, depth, input, p).Some? && NoSyntaxError(Step(t, depth, input, p).value.log)
    ensures var q := Step(t, depth, input, p).value;
            StatesIn(f, q.stack) && q.errcnt <= 0 && Step(u, depth, input, Renamed(f, p)) == Some(Renamed(f, q))
  {
    hide Iterate;
    if p.pos < |input| {
      var p0 := Initialised(p);
      assert Initialised(Renamed(f, p)) == Renamed(f, p0);
      RenamedIterate(g, t, u, f, depth, p0, input[p.pos]);
    }
  }

  lemma {:induction false} RenamedRun(g: Grammar, t: Tables, u: Tables, f: seq<nat>, depth: nat, input: seq<nat>,
                                      p: Parser, n: nat)
    requires Simulates(g, t, u, f) && InputOk(g, input) && StatesIn(f, p.stack) && p.errcnt <= 0
    requires Run(t, depth, input, p, n).Some? && NoSyntaxError(Run(t, depth, input, p, n).value.log)
    ensures Run(u, depth, input, Renamed(f, p), n) == Some(Renamed(f, Run(t, depth, input, p, n).value))
    decreases n
  {
    hide Simulates, Step;
    if n > 0 {
      var q := Step(t, depth, input, p).value;
      LogGrows(t, depth, input, q, n - 1);
      RenamedStep(g, t, u, f, depth, input, p);
      RenamedRun(g, t, u, f, depth, input, q, n - 1);
    }
  }

  /** With default reductions, every run without a syntax error is the same step
      for step: same stack up to state numbers, same events, same trees. */
  lemma StepForStep(g: Grammar, a: Automaton, look: Lookaheads, aps: seq<seq<Action>>, bps: seq<seq<Action>>,
                    order: seq<nat>, num: seq<nat>, t: Tables, order': seq<nat>, num': seq<nat>, u: Tables,
                    depth: nat, input: seq<nat>, n: nat)
    requires AllCompressed(g, a, look, aps, bps) && BuiltFrom(g, aps, order, num, t)
    requires BuiltFrom(g, bps, order', num', u)
    requires InputOk(g, input)
    requires Run(t, depth, input, FreshParser, n).Some? && NoSyntaxError(Run(t, depth, input, FreshParser, n).value.log)
    ensures Run(u, depth, input, FreshParser, n)
         == Some(Renamed(Between(order, num'), Run(t, depth, input, FreshParser, n).value))
  {
    var f := Between(order, num');
    hide AllCompressed, Decodes, Simulates, Run;
    CompressionSimulates(g, a, look, aps, bps, order, num, t, order', num', u);
    assert Renamed(f, FreshParser) == FreshParser;
    RenamedRun(g, t, u, f, depth, input, FreshParser, n);
  }

  /** At every moment of every run of `t` before its first syntax error, `u` is in the same
      place, with `f[s]` for the state `s`. */
  ghost predicate SameRuns(g: Grammar, t: Tables, u: Tables, f: seq<nat>) {
    forall depth: nat, input: seq<nat>, n: nat :: InputOk(g, input) ==> SameAfter(t, u, f, depth, input, n)
  }

  ghost predicate SameAfter(t: Tables, u: Tables, f: seq<nat>, depth: nat, input: seq<nat>, n: nat) {
    var q := Run(t, depth, input, FreshParser, n);
    q.Some? && NoSyntaxError(q.value.log) ==> Run(u, depth, input, FreshParser, n) == Some(Renamed(f, q.value))
  }

  /** So they are for some renumbering of the states. */
  ghost predicate ParsersAgree(g: Grammar, t: Tables, u: Tables) {
    exists f :: Simulates(g, t, u, f) && SameRuns(g, t, u, f)
  }

  lemma AllRunsSame(g: Grammar, a: Automaton, look: Lookaheads, aps: seq<seq<Action>>, bps: seq<seq<Action>>,
                    order: seq<nat>, num: seq<nat>, t: Tables, order': seq<nat>, num': seq<nat>, u: Tables)
    requires g.WellFormed() && AllResolved(g, a, look, aps) && CompressedOrNot(g, aps, aps, false)
    requires CompressedOrNot(g, aps, bps, true)
    requires BuiltFrom(g, aps, order, num, t) && BuiltFrom(g, bps, order', num', u)
    ensures ParsersAgree(g, t, u)
  {
    hide ResolvedFrom, Compressed, Decodes, Simulates, Run;
    assert AllCompressed(g, a, look, aps, bps);
    var f := Between(order, num');
    CompressionSimulates(g, a, look, aps, bps, order, num, t, order', num', u);
    forall depth: nat, input: seq<nat>, n: nat | InputOk(g, input) ensures SameAfter(t, u, f, depth, input, n) {
      var q := Run(t, depth, input, FreshParser, n);
      if q.Some? && NoSyntaxError(q.value.log) {
        StepForStep(g, a, look, aps, bps, order, num, t, order', num', u, depth, input, n);
      }
    }
  }

  lemma PlainIsSame(g: Grammar, aps: seq<seq<Action>>, final: seq<seq<Action>>)
    requires CompressedOrNot(g, aps, final, false)
    ensures final == aps
  {
  }

  /** One grammar, its resolved actions packed as they are and compressed: whatever is
      fed to the two parsers, they do the same up to the first syntax error. */
  method GenerateBoth(g: Grammar)
    returns (t: Tables, u: Tables, clean: bool,
             ghost first: seq<set<nat>>, ghost a: Automaton, ghost look: Lookaheads,
             ghost b: Automaton, ghost l: Lookaheads, ghost c: Automaton, ghost m: Lookaheads)
    requires g.WellFormed() && g.StartNotOnRhs()
    ensures IsLalr(g, first, a, look) && (clean <==> ConflictFree(g, a, look))
    ensures Delivered(g, first, b, l, t) && SameUpToOrder(a, look, b, l) && DefaultsOk(g, b, l, t, false)
    ensures Delivered(g, first, c, m, u) && SameUpToOrder(a, look, c, m) && DefaultsOk(g, c, m, u, true)
    ensures ParsersAgree(g, t, u)
  {
    hide *;
    var aps, n;
    aps, n, clean, first, a, look := FrontEnd(g);
    ghost var aps', bps, order, num, order', num';
    t, aps', order, num, b, l := BackEnd(g, aps, false, first, a, look);
    u, bps, order', num', c, m := BackEnd(g, aps, true, first, a, look);
    PlainIsSame(g, aps, aps');
    AllRunsSame(g, a, look, aps, bps, order, num, t, order', num', u);
  }
}
