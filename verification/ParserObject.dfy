/** The parser object of `lempar.c`: a stack array and an index into it, updated in
    place. Each method is proved against the step functions of module Driver,
    and the assertions of the C code are assertions here. */
module ParserObject {
  import opened Options
  import opened Grammars
  import opened Automata
  import opened Driver
  import opened Soundness

  /** A turn that starts well does not fail. */
  lemma KeptTurn(g: Grammar, a: Automaton, look: Lookaheads, t: Tables, depth: nat, input: seq<nat>, p: Parser)
    requires Generated(g, a, look, t) && RunOk(g, a, input, p) && p.stack != [] && p.pos < |input|
    requires input[p.pos] < g.nterminal
    ensures !Iterate(t, depth, p, input[p.pos]).Abort?
  {
    hide Generated, RunOk, Iterate;
    IterateKeeps(g, a, look, t, depth, input, p);
  }

  /** Turns of the do-while loop of one `Parse` call, at most `n` of them. */
  function Turns(t: Tables, depth: nat, p: Parser, major: nat, n: nat): Outcome
    requires p.stack != []
    decreases n
  {
    if n == 0 then Again(p)
    else
      var o := Iterate(t, depth, p, major);
      if o.Again? && o.parser.stack != [] then Turns(t, depth, o.parser, major, n - 1) else o
  }

  class YyParser {
    const t: Tables
    const yystack: array<Entry>
    var yyidx: int
    var yyerrcnt: int
    /** The grammar the tables were generated for, and the tokens seen so far. */
    ghost const g: Grammar
    ghost const a: Automaton
    ghost const look: Lookaheads
    ghost var input: seq<nat>
    /** The calls into user code, and where they happened. */
    var log: seq<Event>
    var pos: nat
    var from: nat
    var discarded: nat

    ghost predicate Shape()
      reads this
    {
      -1 <= yyidx < yystack.Length && yystack.Length > 0
    }

    /** The parser as a value. */
    ghost function View(): Parser
      reads this, yystack
      requires Shape()
    {
      Parser(yystack[..yyidx + 1], yyerrcnt, log, pos, from, discarded)
    }

    ghost predicate Valid()
      reads this, yystack
    {
      Shape() && Generated(g, a, look, t) && RunOk(g, a, input, View())
    }

    /** `ParseAlloc`. */
    constructor (t: Tables, depth: nat, ghost g: Grammar, ghost a: Automaton, ghost look: Lookaheads)
      requires depth > 0 && Generated(g, a, look, t)
      ensures Valid() && this.t == t && this.g == g && this.a == a && this.look == look
      ensures View() == FreshParser && input == [] && pos == 0 && yystack.Length == depth && fresh(yystack)
    {
      this.t, this.g, this.a, this.look := t, g, a, look;
      yystack := new Entry[depth](_ => Entry(0, 0, Leaf(0)));
      yyidx, yyerrcnt := -1, 0;
      input, log, pos, from, discarded := [], [], 0, 0, 0;
    }

    /** `yy_pop_parser_stack`, until nothing is left. */
    method PopAll()
      requires Shape()
      modifies this`yyidx
      ensures yyidx == -1
    {
      while yyidx >= 0
        invariant -1 <= yyidx <= old(yyidx)
      {
        yyidx := yyidx - 1;
      }
    }

    /** `yy_shift`, and `yyStackOverflow` if there is no room. */
    method Push(stateno: nat, major: nat, minor: Tree)
      requires Shape()
      modifies this`yyidx, this`log, yystack
      ensures Shape() && View() == Driver.Shift(yystack.Length, old(View()), Entry(stateno, major, minor))
    {
      yyidx := yyidx + 1;
      if yyidx >= yystack.Length {
        yyidx := yyidx - 1;
        PopAll();
        log := log + [StackOverflow];
      } else {
        yystack[yyidx] := Entry(stateno, major, minor);
        assert yystack[..yyidx + 1] == old(yystack[..yyidx + 1]) + [Entry(stateno, major, minor)];
      }
    }

    /** `yy_find_shift_action`. */
    method FindShift(la: nat) returns (act: int)
      requires Valid() && yyidx >= 0 && la < g.nterminal
      ensures FindShiftAction(t, yystack[yyidx].stateno, la) == Some(act)
      ensures TokenActionOk(g, a, look, t, yystack[yyidx].stateno, la)
    {
      ghost var top := View().stack[yyidx];
      assert TokenActionOk(g, a, look, t, top.stateno, la);
      var stateno := yystack[yyidx].stateno;
      if stateno >= |t.shiftOfst| || t.shiftOfst[stateno] == t.shiftUseDflt {
        return t.dflt[stateno];
      }
      assert la != NoCode(t);
      var i := t.shiftOfst[stateno] + la;
      if i < 0 || i >= |t.yyaction| || t.yylookahead[i] != la {
        return t.dflt[stateno];
      }
      return t.yyaction[i];
    }

    /** `yy_find_reduce_action`, whose assertions all hold where it is called. */
    method FindReduce(stateno: nat, la: nat) returns (act: int)
      requires FindReduceAction(t, stateno, la).Some?
      ensures FindReduceAction(t, stateno, la) == Some(act)
    {
      assert stateno < |t.reduceOfst|;
      var i := t.reduceOfst[stateno];
      assert i != t.reduceUseDflt;
      assert la != NoCode(t);
      i := i + la;
      assert 0 <= i < |t.yyaction|;
      assert t.yylookahead[i] == la;
      act := t.yyaction[i];
    }

    /** `yy_reduce`, with `yy_accept` at the end of a start rule. */
    method Reduce(r: nat)
      requires Shape() && Driver.Reduce(t, yystack.Length, View(), r).Some?
      modifies this`yyidx, this`log, yystack
      ensures Shape() && Some(View()) == old(Driver.Reduce(t, yystack.Length, View(), r))
    {
      ghost var p := View();
      var (lhs, size) := t.ruleInfo[r];
      var base := yyidx + 1 - size;
      var tree := Branch(r, Minors(yystack[base..yyidx + 1]));
      assert p.stack[base..] == yystack[base..yyidx + 1] && p.stack[..base] == yystack[..base];
      assert p.stack[base - 1] == yystack[base - 1];
      yyidx := yyidx - size;
      var act := FindReduce(yystack[base - 1].stateno, lhs);
      if act < t.nstate {
        Push(act, lhs, tree);
      } else {
        assert act == t.nstate + t.nrule + 1;
        PopAll();
        log := log + [Accept(tree, from, pos, discarded)];
      }
    }

    /** One turn of the loop in `Parse`. */
    method Turn(yymajor: nat) returns (consumed: bool)
      requires Valid() && yyidx >= 0 && pos < |input| && input[pos] == yymajor < g.nterminal
      modifies this`yyidx, this`yyerrcnt, this`log, this`discarded, yystack
      ensures Shape()
      ensures var o := old(Iterate(t, yystack.Length, View(), yymajor));
              !o.Abort? && View() == o.parser && (consumed <==> o.Consumed?)
    {
      hide RunOk, FindShiftAction, Driver.Reduce, Generated, ReduceOk;
      ghost var p := View();
      KeptTurn(g, a, look, t, yystack.Length, input, p);
      assert p.stack[|p.stack| - 1] == yystack[yyidx];
      var yyact := FindShift(yymajor);
      if yyact < t.nstate {
        assert yymajor != 0;
        Push(yyact, yymajor, Leaf(yymajor));
        yyerrcnt := yyerrcnt - 1;
        consumed := true;
      } else if yyact < t.nstate + t.nrule {
        Reduce(yyact - t.nstate);
        consumed := yyidx < 0;
      } else {
        assert yyact == t.nstate + t.nrule;
        if yyerrcnt <= 0 { log := log + [SyntaxError(yymajor)]; }
        yyerrcnt := 3;
        if yymajor == 0 {
          PopAll();
          log := log + [ParseFailed];
        } else {
          discarded := discarded + 1;
        }
        consumed := true;
      }
    }
  
    /** (Re)initialisation at the head of `Parse`. */
    method Begin(yymajor: nat)
      requires Valid() && pos == |input| && yymajor < g.nterminal
      modifies this, yystack
      ensures Valid() && yyidx >= 0 && View() == Initialised(old(View())) && input == old(input) + [yymajor]
      ensures pos == old(pos)
    {
      hide RunOk, IsAutomaton, TablesFor;
      InputGrows(g, a, input, View(), yymajor);
      input := input + [yymajor];
      InitialisedOk(g, a, input, View());
      if yyidx < 0 {
        yyidx := 0;
        yyerrcnt := -1;
        yystack[0] := Entry(0, 0, Leaf(0));
        from, discarded := pos, 0;
        assert yystack[..1] == [Entry(0, 0, Leaf(0))];
      }
    }

    /** A turn of the loop keeps the object in order. */
    method Advance(yymajor: nat) returns (consumed: bool)
      requires Valid() && yyidx >= 0 && pos < |input| && input[pos] == yymajor < g.nterminal
      modifies this`yyidx, this`yyerrcnt, this`log, this`discarded, this`pos, yystack
      ensures Valid() && pos == old(pos) + (if consumed then 1 else 0) && (!consumed ==> yyidx >= 0)
      ensures old(Iterate(t, yystack.Length, View(), yymajor)) ==
              if consumed then Consumed(View().(pos := old(pos))) else Again(View())
    {
      hide Generated, RunOk, Iterate;
      ghost var p := View();
      IterateKeeps(g, a, look, t, yystack.Length, input, p);
      PositionKept(t, yystack.Length, p, yymajor);
      consumed := Turn(yymajor);
      if consumed { pos := pos + 1; }
    }

    /** `Parse`, where it is known to end: after `turns` turns of its loop at most. */
    method Parse(yymajor: nat, ghost turns: nat)
      requires Valid() && pos == |input| && yymajor < g.nterminal
      requires Turns(t, yystack.Length, Initialised(View()), yymajor, turns).Consumed?
      modifies this, yystack
      ensures Valid() && input == old(input) + [yymajor] && pos == |input|
      ensures var o := old(Turns(t, yystack.Length, Initialised(View()), yymajor, turns));
              View() == o.parser.(pos := o.parser.pos + 1)
    {
      hide Generated, RunOk, Iterate;
      Begin(yymajor);
      ghost var end := Turns(t, yystack.Length, View(), yymajor, turns);
      var finished := false;
      ghost var n := turns;
      while !finished
        invariant Valid() && input == old(input) + [yymajor] && pos + (if finished then 0 else 1) == |input|
        invariant !finished ==> yyidx >= 0 && Turns(t, yystack.Length, View(), yymajor, n) == end
        invariant finished ==> end == Consumed(View().(pos := pos - 1)) && pos > 0
        decreases n, !finished
      {
        finished := Advance(yymajor);
        n := n - 1;
      }
    }

    /** `Parse` for any grammar, giving up after `fuel` turns of its loop. */
    method ParseWithin(yymajor: nat, fuel: nat) returns (finished: bool)
      requires Valid() && pos == |input| && yymajor < g.nterminal
      modifies this, yystack
      ensures Valid() && input == old(input) + [yymajor]
      ensures var o := old(Turns(t, yystack.Length, Initialised(View()), yymajor, fuel));
              if finished then o.Consumed? && View() == o.parser.(pos := o.parser.pos + 1) && pos == |input|
              else o.Again? && View() == o.parser && pos + 1 == |input|
    {
      hide Generated, RunOk, Iterate;
      Begin(yymajor);
      ghost var start := View();
      finished := false;
      var n := fuel;
      while n > 0 && !finished
        invariant Valid() && input == old(input) + [yymajor] && pos + (if finished then 0 else 1) == |input|
        invariant !finished ==>
            yyidx >= 0 && Turns(t, yystack.Length, start, yymajor, fuel) == Turns(t, yystack.Length, View(), yymajor, n)
        invariant finished ==>
                  Turns(t, yystack.Length, start, yymajor, fuel) == Consumed(View().(pos := pos - 1)) && pos > 0
        decreases n
      {
        finished := Advance(yymajor);
        n := n - 1;
      }
    }
  }

  /** A loop turn moves no further along the input by itself, and goes round again
      only with something on the stack. */
  lemma InputGrows(g: Grammar, a: Automaton, input: seq<nat>, p: Parser, tok: nat)
    requires RunOk(g, a, input, p)
    ensures RunOk(g, a, input + [tok], p)
  {
    var more := input + [tok];
    forall i, j | 0 <= i <= j <= |input| ensures more[i..j] == input[i..j] {
    }
    forall i | 0 <= i < |p.log| && p.log[i].Accept? ensures AcceptOk(g, more, p.log[i]) {
      assert AcceptOk(g, input, p.log[i]);
    }
  }

  /** A `Parse` call that returns is a stretch of the run over the whole input. */
  lemma {:induction false} TurnsAreSteps(t: Tables, depth: nat, input: seq<nat>, p: Parser, n: nat) returns (k: nat)
    requires p.pos < |input| && Turns(t, depth, Initialised(p), input[p.pos], n).Consumed?
    ensures 0 < k <= n
    ensures var q := Turns(t, depth, Initialised(p), input[p.pos], n).parser;
            Run(t, depth, input, p, k) == Some(q.(pos := q.pos + 1))
    decreases n
  {
    hide Iterate;
    var o := Iterate(t, depth, Initialised(p), input[p.pos]);
    PositionKept(t, depth, Initialised(p), input[p.pos]);
    if o.Consumed? {
      k := 1;
      assert Run(t, depth, input, p, 1) == Step(t, depth, input, p);
    } else {
      var m := TurnsAreSteps(t, depth, input, o.parser, n - 1);
      k := m + 1;
    }
  }
}
