/** The generated parser: `lempar.c` without an error symbol, fallback tokens or a
    wildcard, and with a fixed stack depth. The semantic value of a symbol is
    the parse tree that the user actions would see. */
module Driver {
  import opened Options
  import opened Grammars

  datatype Tables = Tables(
    nstate: nat,
    nrule: nat,
    nsymbol: nat,
    yyaction: seq<int>,
    yylookahead: seq<int>,
    shiftOfst: seq<int>,
    shiftUseDflt: int,
    reduceOfst: seq<int>,
    reduceUseDflt: int,
    dflt: seq<int>,
    ruleInfo: seq<(nat, nat)>)

  function ErrorAction(t: Tables): int { t.nstate + t.nrule }

  function AcceptAction(t: Tables): int { t.nstate + t.nrule + 1 }

  /** The code that no symbol has. */
  function NoCode(t: Tables): nat { t.nsymbol + 1 }

  /** `yy_find_shift_action`; None is a read outside a table or a failing assertion. */
  function FindShiftAction(t: Tables, stateno: nat, la: nat): Option<int> {
    if stateno >= |t.dflt| || |t.yylookahead| != |t.yyaction| then None
    else if stateno >= |t.shiftOfst| || t.shiftOfst[stateno] == t.shiftUseDflt then Some(t.dflt[stateno])
    else if la == NoCode(t) then None
    else
      var i := t.shiftOfst[stateno] + la;
      if i < 0 || i >= |t.yyaction| || t.yylookahead[i] != la then Some(t.dflt[stateno])
      else Some(t.yyaction[i])
  }

  /** `yy_find_reduce_action`; None is a failing assertion. */
  function FindReduceAction(t: Tables, stateno: nat, la: nat): Option<int> {
    if stateno >= |t.reduceOfst| || t.reduceOfst[stateno] == t.reduceUseDflt || la == NoCode(t) then None
    else
      var i := t.reduceOfst[stateno] + la;
      if i < 0 || i >= |t.yyaction| || i >= |t.yylookahead| || t.yylookahead[i] != la then None
      else Some(t.yyaction[i])
  }

  // ---------------------------------------------------------------------------
  // The parser and its steps

  datatype Entry = Entry(stateno: nat, major: nat, minor: Tree)

  /** Calls into user code. An accept records the tree, the positions of the
      first token of this parse and of the accepting token, and how many tokens
      in between were thrown away as errors. */
  datatype Event =
    | Accept(tree: Tree, from: nat, upto: nat, discarded: nat)
    | ParseFailed
    | SyntaxError(token: nat)
    | StackOverflow

  /** `yyidx` is |stack| - 1. The last three fields are history. */
  datatype Parser = Parser(stack: seq<Entry>, errcnt: int, log: seq<Event>, pos: nat, from: nat, discarded: nat)

  datatype Outcome =
    | Again(parser: Parser)
    | Consumed(parser: Parser)
    | Abort

  const FreshParser := Parser([], 0, [], 0, 0, 0)

  function Minors(es: seq<Entry>): seq<Tree> {
    seq(|es|, i requires 0 <= i < |es| => es[i].minor)
  }

  /** (Re)initialisation at the head of `Parse`. */
  function Initialised(p: Parser): Parser {
    if p.stack == [] then p.(stack := [Entry(0, 0, Leaf(0))], errcnt := -1, from := p.pos, discarded := 0) else p
  }

  /** `yy_shift`, with `yyStackOverflow` emptying the stack. */
  function Shift(depth: nat, p: Parser, e: Entry): Parser {
    if |p.stack| >= depth then p.(stack := [], log := p.log + [StackOverflow])
    else p.(stack := p.stack + [e])
  }

  /** `yy_reduce`. */
  function Reduce(t: Tables, depth: nat, p: Parser, r: nat): Option<Parser> {
    if r >= |t.ruleInfo| || t.ruleInfo[r].1 >= |p.stack| then None
    else
      var (lhs, size) := t.ruleInfo[r];
      var base := |p.stack| - size;
      var act := FindReduceAction(t, p.stack[base - 1].stateno, lhs);
      var tree := Branch(r, Minors(p.stack[base..]));
      if act.None? || act.value < 0 then None
      else if act.value < t.nstate then Some(Shift(depth, p.(stack := p.stack[..base]), Entry(act.value, lhs, tree)))
      else if act.value == AcceptAction(t) then
        Some(p.(stack := [], log := p.log + [Accept(tree, p.from, p.pos, p.discarded)]))
      else None
  }

  /** One turn of the do-while loop in `Parse`. */
  function Iterate(t: Tables, depth: nat, p: Parser, major: nat): Outcome
    requires p.stack != []
  {
    var found := FindShiftAction(t, p.stack[|p.stack| - 1].stateno, major);
    if found.None? || found.value < 0 then Abort
    else if found.value < t.nstate then
      if major == 0 then Abort
      else
        var q := Shift(depth, p, Entry(found.value, major, Leaf(major)));
        Consumed(q.(errcnt := q.errcnt - 1))
    else if found.value < t.nstate + t.nrule then
      var q := Reduce(t, depth, p, found.value - t.nstate);
      if q.None? then Abort else if q.value.stack == [] then Consumed(q.value) else Again(q.value)
    else if found.value != ErrorAction(t) then Abort
    else
      var log := if p.errcnt <= 0 then p.log + [SyntaxError(major)] else p.log;
      if major == 0 then Consumed(p.(stack := [], errcnt := 3, log := log + [ParseFailed]))
      else Consumed(p.(errcnt := 3, log := log, discarded := p.discarded + 1))
  }

  /** The caller feeding the tokens of `input` one `Parse` call after the other,
      cut into loop turns. None is a failed assertion. */
  function Step(t: Tables, depth: nat, input: seq<nat>, p: Parser): Option<Parser> {
    if p.pos >= |input| then Some(p)
    else
      match Iterate(t, depth, Initialised(p), input[p.pos])
      case Again(q) => Some(q)
      case Consumed(q) => Some(q.(pos := q.pos + 1))
      case Abort => None
  }

  function Run(t: Tables, depth: nat, input: seq<nat>, p: Parser, n: nat): Option<Parser>
    decreases n
  {
    if n == 0 then Some(p)
    else
      var q := Step(t, depth, input, p);
      if q.None? then None else Run(t, depth, input, q.value, n - 1)
  }

  lemma {:induction false} RunAppend(t: Tables, depth: nat, input: seq<nat>, p: Parser, m: nat, n: nat)
    requires Run(t, depth, input, p, m).Some?
    ensures Run(t, depth, input, p, m + n) == Run(t, depth, input, Run(t, depth, input, p, m).value, n)
    decreases m
  {
    if m > 0 {
      RunAppend(t, depth, input, Step(t, depth, input, p).value, m - 1, n);
    }
  }

  lemma PositionKept(t: Tables, depth: nat, p: Parser, major: nat)
    requires p.stack != []
    ensures var o := Iterate(t, depth, p, major); !o.Abort? ==>
            o.parser.pos == p.pos && (o.Again? ==> o.parser.stack != [])
  {
  }

  lemma {:induction false} PosGrows(t: Tables, depth: nat, input: seq<nat>, p: Parser, n: nat)
    requires Run(t, depth, input, p, n).Some?
    ensures p.pos <= Run(t, depth, input, p, n).value.pos
    ensures p.pos >= |input| ==> Run(t, depth, input, p, n).value == p
    decreases n
  {
    hide Iterate;
    if n > 0 {
      if p.pos < |input| { PositionKept(t, depth, Initialised(p), input[p.pos]); }
      PosGrows(t, depth, input, Step(t, depth, input, p).value, n - 1);
    }
  }

  /** The last step of a run. */
  lemma {:induction false} RunLast(t: Tables, depth: nat, input: seq<nat>, p: Parser, n: nat)
    requires Run(t, depth, input, p, n + 1).Some?
    ensures Run(t, depth, input, p, n).Some?
    ensures var q := Run(t, depth, input, p, n).value;
            Run(t, depth, input, p, n + 1) == Run(t, depth, input, q, 1) == Step(t, depth, input, q)
    decreases n
  {
    hide Step;
    if n > 0 {
      RunLast(t, depth, input, Step(t, depth, input, p).value, n - 1);
    }
    var q := Run(t, depth, input, p, n).value;
    assert Run(t, depth, input, q, 1) == Step(t, depth, input, q);
  }
}
