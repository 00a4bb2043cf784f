/** From a grammar to a parse: generate the tables, set up the parser object, and feed it
    a token string and the end of input. */
module EndToEnd {
  import opened Options
  import opened Grammars
  import opened FirstSets
  import opened Automata
  import opened Driver
  import opened Soundness
  import opened Completeness
  import opened Generator
  import opened ParserObject
  import opened Termination
  import opened NoDetours

  // ---------------------------------------------------------------------------
  // Calls that end

  /** Every call along the run on the input ends within so many turns. */
  ghost predicate CallsEnd(t: Tables, depth: nat, input: seq<nat>, turns: nat) {
    forall k: nat :: CallEndsAt(t, depth, input, turns, k)
  }

  ghost predicate CallEndsAt(t: Tables, depth: nat, input: seq<nat>, turns: nat, k: nat) {
    var p := Run(t, depth, input, FreshParser, k);
    p.Some? && p.value.pos < |input| ==> Turns(t, depth, Initialised(p.value), input[p.value.pos], turns).Consumed?
  }

  /** They do for a grammar without conflicts and without hidden empty rules. */
  lemma AllCallsEnd(g: Grammar, first: seq<set<nat>>, a: Automaton, look: Lookaheads, t: Tables, depth: nat,
                    input: seq<nat>)
    requires Solid(g, first, a, look, t) && Generated(g, a, look, t) && depth > 0 && InputOk(g, input)
    ensures CallsEnd(t, depth, input, TurnBound(g, depth, |input|))
  {
    hide Run, Turns, TurnBound, RunOk, Generated, Solid;
    forall k: nat ensures CallEndsAt(t, depth, input, TurnBound(g, depth, |input|), k) {
      var p := Run(t, depth, input, FreshParser, k);
      if p.Some? && p.value.pos < |input| {
        SolidCallEnds(g, first, a, look, t, depth, input, k);
      }
    }
  }

  // ---------------------------------------------------------------------------
  // Feeding the parser

  /** One `Parse` call for each token; the parser ends up where the run does. */
  method Feed(parser: YyParser, tokens: seq<nat>, ghost turns: nat) returns (ghost k: nat)
    requires parser.Valid() && parser.input == [] && parser.pos == 0 && parser.View() == FreshParser
    requires InputOk(parser.g, tokens) && CallsEnd(parser.t, parser.yystack.Length, tokens, turns)
    modifies parser, parser.yystack
    ensures parser.Valid() && parser.Shape() && parser.View().pos == |tokens| && parser.View().log == parser.log
    ensures Run(parser.t, parser.yystack.Length, tokens, FreshParser, k) == Some(parser.View())
  {
    hide Generated, RunOk, Turns, Step;
    k := 0;
    for i := 0 to |tokens|
      invariant parser.Valid() && parser.input == tokens[..i] && parser.pos == i
      invariant Run(parser.t, parser.yystack.Length, tokens, FreshParser, k) == Some(parser.View())
    {
      assert CallEndsAt(parser.t, parser.yystack.Length, tokens, turns, k);
      ghost var p := parser.View();
      parser.Parse(tokens[i], turns);
      assert tokens[..i + 1] == tokens[..i] + [tokens[i]];
      ghost var m := TurnsAreSteps(parser.t, parser.yystack.Length, tokens, p, turns);
      RunAppend(parser.t, parser.yystack.Length, tokens, FreshParser, k, m);
      k := k + m;
    }
  }

  /** At the end of the input the run has come to rest. */
  lemma SameAtEnd(t: Tables, depth: nat, input: seq<nat>, m: nat, n: nat)
    requires Run(t, depth, input, FreshParser, m).Some? && Run(t, depth, input, FreshParser, m).value.pos >= |input|
    requires Run(t, depth, input, FreshParser, n).Some? && Run(t, depth, input, FreshParser, n).value.pos >= |input|
    ensures Run(t, depth, input, FreshParser, m) == Run(t, depth, input, FreshParser, n)
  {
    hide Step;
    if m <= n {
      RunAppend(t, depth, input, FreshParser, m, n - m);
      PosGrows(t, depth, input, Run(t, depth, input, FreshParser, m).value, n - m);
    } else {
      RunAppend(t, depth, input, FreshParser, n, m - n);
      PosGrows(t, depth, input, Run(t, depth, input, FreshParser, n).value, m - n);
    }
  }

  /** What the parser has logged at the end says whether the string is a sentence. */
  lemma LogDecides(g: Grammar, a: Automaton, l: Lookaheads, look: Lookaheads, t: Tables, depth: nat, w: seq<nat>,
                   k: nat, tree: Tree)
    requires Generated(g, a, l, t) && Complete(g, a, look, t) && depth > 0 && TokensOnly(g, w)
    requires Run(t, depth, w + [0], FreshParser, k).Some? && Run(t, depth, w + [0], FreshParser, k).value.pos == |w| + 1
    ensures Run(t, depth, w + [0], FreshParser, k).value.log == [Accept(tree, 0, |w|, 0)] <==>
            IsParse(g, tree, w) && StackNeed(tree) <= depth
  {
    hide Generated, Complete, Run, IsParse, StackNeed;
    var log := Run(t, depth, w + [0], FreshParser, k).value.log;
    if IsParse(g, tree, w) {
      var n := SentenceRun(g, a, look, t, depth, w, tree);
      if StackNeed(tree) <= depth {
        SameAtEnd(t, depth, w + [0], k, n);
      } else {
        LogsComparable(t, depth, w + [0], FreshParser, k, n);
        OverflowIsFirst(log, Run(t, depth, w + [0], FreshParser, n).value.log, tree, |w|);
      }
    } else if log == [Accept(tree, 0, |w|, 0)] {
      LogIsParse(g, a, l, t, depth, w, k, tree);
    }
  }

  lemma OverflowIsFirst(log: seq<Event>, other: seq<Event>, tree: Tree, n: nat)
    requires other == [StackOverflow] && (log <= other || other <= log)
    ensures log != [Accept(tree, 0, n, 0)]
  {
    if log != [] { assert log[0] == other[0]; }
  }

  lemma LogIsParse(g: Grammar, a: Automaton, l: Lookaheads, t: Tables, depth: nat, w: seq<nat>, k: nat, tree: Tree)
    requires Generated(g, a, l, t) && TokensOnly(g, w)
    requires Run(t, depth, w + [0], FreshParser, k).Some?
    requires Run(t, depth, w + [0], FreshParser, k).value.log == [Accept(tree, 0, |w|, 0)]
    ensures IsParse(g, tree, w)
  {
    AcceptedIsSentence(g, a, l, t, depth, w + [0], k, 0);
    assert (w + [0])[0..|w|] == w;
  }

  // ---------------------------------------------------------------------------
  // The whole way

  ghost predicate Decides(g: Grammar, depth: nat, w: seq<nat>, log: seq<Event>) {
    forall tree :: log == [Accept(tree, 0, |w|, 0)] <==> IsParse(g, tree, w) && StackNeed(tree) <= depth
  }

  /** For any token string: if the grammar has no conflicts, parsing ends, and accepts
      with a tree exactly if that is a parse which fits the stack. If it has some, the
      parser is not started. */
  method ParseString(g: Grammar, compress: bool, depth: nat, w: seq<nat>)
    returns (clean: bool, log: seq<Event>,
             ghost first: seq<set<nat>>, ghost a: Automaton, ghost look: Lookaheads)
    requires g.WellFormed() && g.StartNotOnRhs() && g.RhsFits() && ScansComplete(g)
    requires depth > 0 && TokensOnly(g, w)
    ensures IsLalr(g, first, a, look) && (clean <==> ConflictFree(g, a, look))
    ensures if clean then Decides(g, depth, w, log) else log == []
  {
    hide *;
    log := [];
    var t, n;
    ghost var b, l;
    t, n, clean, first, a, look, b, l := Generate(g, compress);
    if clean {
      DeliveredGenerated(g, first, b, l, t);
      var parser := new YyParser(t, depth, g, b, l);
      var tokens := w + [0];
      InputIsOk(g, w);
      LalrFirst(g, first, a, look);
      DeliveredSolid(g, first, b, l, t);
      AllCallsEnd(g, first, b, l, t, depth, tokens);
      ghost var k := Feed(parser, tokens, TurnBound(g, depth, |tokens|));
      log := parser.log;
      DecidedBy(g, b, l, l, t, depth, w, k);
    }
  }

  lemma DeliveredGenerated(g: Grammar, first: seq<set<nat>>, b: Automaton, l: Lookaheads, t: Tables)
    requires Delivered(g, first, b, l, t) && g.RhsFits()
    ensures Generated(g, b, l, t)
  {
    hide Generated, IsAutomaton, IsLook, TablesFor, TablesChoose, GotosOnly, Grammar.RhsFits;
  }

  lemma LalrFirst(g: Grammar, first: seq<set<nat>>, a: Automaton, look: Lookaheads)
    requires IsLalr(g, first, a, look)
    ensures IsFirst(g, ExplicitEmpty(g), first)
  {
    hide IsFirst, IsCanonical, IsLook;
  }

  lemma DeliveredSolid(g: Grammar, first: seq<set<nat>>, b: Automaton, l: Lookaheads, t: Tables)
    requires Delivered(g, first, b, l, t) && Complete(g, b, l, t) && ScansComplete(g)
    requires IsFirst(g, ExplicitEmpty(g), first)
    ensures Solid(g, first, b, l, t)
  {
    hide Generated, IsAutomaton, IsLook, TablesFor, TablesChoose, DefaultsAnswer, GotosOnly, Complete, ScansComplete,
         IsFirst, AllReached;
  }

  lemma InputIsOk(g: Grammar, w: seq<nat>)
    requires g.WellFormed() && TokensOnly(g, w)
    ensures InputOk(g, w + [0])
  {
  }

  lemma DecidedBy(g: Grammar, a: Automaton, l: Lookaheads, look: Lookaheads, t: Tables, depth: nat, w: seq<nat>, k: nat)
    requires Generated(g, a, l, t) && Complete(g, a, look, t) && depth > 0 && TokensOnly(g, w)
    requires Run(t, depth, w + [0], FreshParser, k).Some? && Run(t, depth, w + [0], FreshParser, k).value.pos == |w| + 1
    ensures Decides(g, depth, w, Run(t, depth, w + [0], FreshParser, k).value.log)
  {
    hide Generated, Complete, Run, IsParse, StackNeed;
    forall tree
      ensures Run(t, depth, w + [0], FreshParser, k).value.log == [Accept(tree, 0, |w|, 0)] <==>
                  IsParse(g, tree, w) && StackNeed(tree) <= depth
    {
      LogDecides(g, a, l, look, t, depth, w, k, tree);
    }
  }
}
