/** What the parser does about errors, over whole runs: which tokens it throws away, what
    it reports, and when it fails. */
module Recovery {
  import opened Options
  import opened Grammars
  import opened Driver
  import opened Soundness
  import opened Completeness
  import opened Termination

  // ---------------------------------------------------------------------------
  // What is seen of a step

  /** The stack a call works on: a parser without one begins anew. */
  function Base(p: Parser): (stack: seq<Entry>)
    ensures stack != []
  {
    if p.stack == [] then [Entry(0, 0, Leaf(0))] else p.stack
  }

  /** What the tables answer for the token that is to be read. */
  function Answer(t: Tables, input: seq<nat>, p: Parser): Option<int>
    requires p.pos < |input|
  {
    FindShiftAction(t, Base(p)[|Base(p)| - 1].stateno, input[p.pos])
  }

  predicate AtError(t: Tables, input: seq<nat>, p: Parser) {
    p.pos < |input| && Answer(t, input, p) == Some(ErrorAction(t))
  }

  /** An error at a token other than the end of the input. */
  predicate Drops(t: Tables, input: seq<nat>, p: Parser) {
    AtError(t, input, p) && input[p.pos] != 0
  }

  predicate ShiftsNext(t: Tables, input: seq<nat>, p: Parser) {
    p.pos < |input| && Answer(t, input, p).Some? && 0 <= Answer(t, input, p).value < t.nstate
  }

  /** The trees accepted so far. */
  function Trees(log: seq<Event>): seq<Tree> {
    if log == [] then []
    else
      var e := log[|log| - 1];
      Trees(log[..|log| - 1]) + if e.Accept? then [e.tree] else []
  }

  lemma TreesAppend(log: seq<Event>, e: Event)
    ensures Trees(log + [e]) == Trees(log) + if e.Accept? then [e.tree] else []
  {
    assert (log + [e])[..|log|] == log;
  }

  // ---------------------------------------------------------------------------
  // Tokens thrown away

  /** A token in error is thrown away and nothing else happens to the stack. */
  lemma DropStep(t: Tables, depth: nat, input: seq<nat>, p: Parser)
    requires Drops(t, input, p)
    ensures Step(t, depth, input, p).Some?
    ensures var q := Step(t, depth, input, p).value;
            && q.stack == Base(p) && q.pos == p.pos + 1 && Trees(q.log) == Trees(p.log)
            && q.discarded == (if p.stack == [] then 0 else p.discarded) + 1
  {
    hide FindShiftAction;
    TreesAppend(p.log, SyntaxError(input[p.pos]));
  }

  /** A turn that does not read the token on adds a node to the trees on the stack. */
  lemma {:induction false} TurnsAddNodes(t: Tables, depth: nat, input: seq<nat>, p: Parser, k: nat)
    requires 0 < |p.stack| <= depth && p.pos < |input|
    requires Run(t, depth, input, p, k).Some? && Run(t, depth, input, p, k).value.pos == p.pos
    ensures var r := Run(t, depth, input, p, k).value;
            0 < |r.stack| <= depth && StackSize(r.stack) == StackSize(p.stack) + k
    decreases k
  {
    hide Iterate, StackSize;
    if k > 0 {
      var q := Step(t, depth, input, p).value;
      PosGrows(t, depth, input, q, k - 1);
      PositionKept(t, depth, p, input[p.pos]);
      AgainAddsNode(t, depth, p, input[p.pos]);
      TurnsAddNodes(t, depth, input, q, k - 1);
    }
  }

  /** After a call that throws its token away, the stack is what it was before the call if
      and only if the call made no reduce. */
  lemma DropKeepsIff(t: Tables, depth: nat, input: seq<nat>, p: Parser, k: nat)
    requires 0 < |p.stack| <= depth && p.pos < |input|
    requires Run(t, depth, input, p, k).Some? && Run(t, depth, input, p, k).value.pos == p.pos
    requires Drops(t, input, Run(t, depth, input, p, k).value)
    ensures Run(t, depth, input, p, k + 1).Some?
    ensures Run(t, depth, input, p, k + 1).value.stack == p.stack <==> k == 0
  {
    hide Step, StackSize, Drops;
    TurnsAddNodes(t, depth, input, p, k);
    var r := Run(t, depth, input, p, k).value;
    DropStep(t, depth, input, r);
    RunAppend(t, depth, input, p, k, 1);
    assert Run(t, depth, input, r, 1) == Step(t, depth, input, r) by {
      assert Run(t, depth, input, Step(t, depth, input, r).value, 0) == Step(t, depth, input, r);
    }
    NoneMade(t, depth, input, p);
  }

  lemma NoneMade(t: Tables, depth: nat, input: seq<nat>, p: Parser)
    ensures Run(t, depth, input, p, 0) == Some(p)
  {
  }

  // ---------------------------------------------------------------------------
  // Throwing away is leaving out

  /** The tokens read in the first `n` steps and not thrown away. */
  ghost function Taken(t: Tables, depth: nat, input: seq<nat>, p: Parser, n: nat): seq<nat>
    decreases n
  {
    if n == 0 || p.pos >= |input| || Step(t, depth, input, p).None? then []
    else
      var q := Step(t, depth, input, p).value;
      (if q.pos > p.pos && !Drops(t, input, p) then [input[p.pos]] else []) + Taken(t, depth, input, q, n - 1)
  }

  /** No token is thrown away after a reduce was made for it; `reduced` says that one was
      made for the token that is to be read. */
  ghost predicate Prompt(t: Tables, depth: nat, input: seq<nat>, p: Parser, n: nat, reduced: bool)
    decreases n
  {
    if n == 0 || p.pos >= |input| || Step(t, depth, input, p).None? then true
    else
      var q := Step(t, depth, input, p).value;
      (Drops(t, input, p) ==> !reduced) && Prompt(t, depth, input, q, n - 1, q.pos == p.pos)
  }

  /** No token is thrown away at all. */
  ghost predicate NeverDrops(t: Tables, depth: nat, input: seq<nat>, p: Parser, n: nat)
    decreases n
  {
    if n == 0 || p.pos >= |input| || Step(t, depth, input, p).None? then true
    else !Drops(t, input, p) && NeverDrops(t, depth, input, Step(t, depth, input, p).value, n - 1)
  }

  /** The same stack, and the same trees accepted. */
  ghost predicate SameParse(p: Parser, q: Parser) {
    Base(p) == Base(q) && Trees(p.log) == Trees(q.log)
  }

  /** Two parsers that agree so do the same with the same token, if it is not an error. */
  lemma SameStep(t: Tables, depth: nat, input: seq<nat>, p: Parser, input': seq<nat>, p': Parser)
    requires SameParse(p, p') && p.pos < |input| && p'.pos < |input'| && input[p.pos] == input'[p'.pos]
    requires !Drops(t, input, p) && Step(t, depth, input, p).Some?
    ensures !Drops(t, input', p') && Step(t, depth, input', p').Some?
    ensures var q, q' := Step(t, depth, input, p).value, Step(t, depth, input', p').value;
            SameParse(q, q') && q'.pos - p'.pos == q.pos - p.pos && p.pos <= q.pos <= p.pos + 1
  {
    hide FindShiftAction, Reduce, Trees;
    var tok, r, r' := input[p.pos], Initialised(p), Initialised(p');
    TreesAppend(p.log, SyntaxError(tok));
    TreesAppend(p'.log, SyntaxError(tok));
    forall log: seq<Event>
      ensures Trees(log + [ParseFailed]) == Trees(log) && Trees(log + [StackOverflow]) == Trees(log)
    {
      TreesAppend(log, ParseFailed);
      TreesAppend(log, StackOverflow);
    }
    var f := FindShiftAction(t, Base(p)[|Base(p)| - 1].stateno, tok).value;
    if t.nstate <= f < t.nstate + t.nrule {
      SameReduce(t, depth, r, r', f - t.nstate);
    }
  }

  lemma SameReduce(t: Tables, depth: nat, p: Parser, p': Parser, r: nat)
    requires p.stack == p'.stack && Trees(p.log) == Trees(p'.log) && Reduce(t, depth, p, r).Some?
    ensures Reduce(t, depth, p', r).Some?
    ensures var q, q' := Reduce(t, depth, p, r).value, Reduce(t, depth, p', r).value;
            q.stack == q'.stack && Trees(q.log) == Trees(q'.log) && q.pos == p.pos && q'.pos == p'.pos
  {
    hide FindReduceAction, Trees;
    var tree := Branch(r, Minors(p.stack[|p.stack| - t.ruleInfo[r].1..]));
    TreesAppend(p.log, StackOverflow);
    TreesAppend(p'.log, StackOverflow);
    TreesAppend(p.log, Accept(tree, p.from, p.pos, p.discarded));
    TreesAppend(p'.log, Accept(tree, p'.from, p'.pos, p'.discarded));
  }

  /** The token that is to be read is the next one taken, unless it is thrown away. */
  lemma {:induction false} NextTaken(t: Tables, depth: nat, input: seq<nat>, p: Parser, n: nat, reduced: bool)
    requires Run(t, depth, input, p, n).Some? && p.pos < |input|
    requires Prompt(t, depth, input, p, n, reduced) && !Drops(t, input, p)
    ensures var q := Run(t, depth, input, p, n).value;
            q.pos <= |input|
            && var ys := Taken(t, depth, input, p, n) + input[q.pos..]; ys != [] && ys[0] == input[p.pos]
    decreases n
  {
    hide Iterate, Drops;
    if n > 0 {
      var q := Step(t, depth, input, p).value;
      PositionKept(t, depth, Initialised(p), input[p.pos]);
      PosAtMost(t, depth, input, q, n - 1);
      if q.pos == p.pos && n > 1 {
        NextTaken(t, depth, input, q, n - 1, true);
      }
    }
  }

  lemma {:induction false} PosAtMost(t: Tables, depth: nat, input: seq<nat>, p: Parser, n: nat)
    requires Run(t, depth, input, p, n).Some? && p.pos <= |input|
    ensures Run(t, depth, input, p, n).value.pos <= |input|
    decreases n
  {
    hide Iterate;
    if n > 0 {
      if p.pos < |input| { PositionKept(t, depth, Initialised(p), input[p.pos]); }
      PosAtMost(t, depth, input, Step(t, depth, input, p).value, n - 1);
    }
  }

  /** Leaving out the tokens that were thrown away leads to the same stack and trees. */
  lemma {:induction false} LeavingOut(t: Tables, depth: nat, input: seq<nat>, p: Parser, n: nat, reduced: bool,
                                      input': seq<nat>, p': Parser) returns (n': nat)
    requires Run(t, depth, input, p, n).Some? && p.pos <= |input| && Prompt(t, depth, input, p, n, reduced)
    requires SameParse(p, p') && p'.pos <= |input'|
    requires Run(t, depth, input, p, n).value.pos <= |input|
    requires input'[p'.pos..] == Taken(t, depth, input, p, n) + input[Run(t, depth, input, p, n).value.pos..]
    ensures Run(t, depth, input', p', n').Some? && NeverDrops(t, depth, input', p', n')
    ensures var q, q' := Run(t, depth, input, p, n).value, Run(t, depth, input', p', n').value;
            SameParse(q, q') && q'.pos <= |input'| && input'[q'.pos..] == input[q.pos..]
    decreases n
  {
    hide Step, Drops, SameParse, Trees;
    if n == 0 || p.pos >= |input| {
      n' := 0;
      if n > 0 { PosGrows(t, depth, input, p, n); }
    } else {
      var q := Step(t, depth, input, p).value;
      if Drops(t, input, p) {
        DropStep(t, depth, input, p);
        DropSame(t, depth, input, p, p');
        n' := LeavingOut(t, depth, input, q, n - 1, false, input', p');
      } else {
        NextTaken(t, depth, input, p, n, reduced);
        assert input'[p'.pos] == input'[p'.pos..][0] == input[p.pos];
        SameStep(t, depth, input, p, input', p');
        var q' := Step(t, depth, input', p').value;
        assert input'[q'.pos..] == input'[p'.pos..][q'.pos - p'.pos..];
        n' := LeavingOut(t, depth, input, q, n - 1, q.pos == p.pos, input', q');
        n' := n' + 1;
      }
    }
  }

  lemma DropSame(t: Tables, depth: nat, input: seq<nat>, p: Parser, p': Parser)
    requires Drops(t, input, p) && SameParse(p, p') && Step(t, depth, input, p).Some?
    ensures SameParse(Step(t, depth, input, p).value, p')
  {
    hide FindShiftAction, Step, Drops, Trees;
    DropStep(t, depth, input, p);
  }

  /** From the beginning: if every token that was thrown away was so without a reduce, the
      run on the other tokens alone throws none away and arrives at the same stack,
      having accepted the same trees. */
  lemma DroppingIsLeavingOut(t: Tables, depth: nat, input: seq<nat>, n: nat) returns (n': nat)
    requires Run(t, depth, input, FreshParser, n).Some? && Prompt(t, depth, input, FreshParser, n, false)
    ensures Run(t, depth, input, FreshParser, n).value.pos <= |input|
    ensures var q := Run(t, depth, input, FreshParser, n).value;
            var rest := Taken(t, depth, input, FreshParser, n) + input[q.pos..];
            && Run(t, depth, rest, FreshParser, n').Some? && NeverDrops(t, depth, rest, FreshParser, n')
            && SameParse(q, Run(t, depth, rest, FreshParser, n').value)
            && Run(t, depth, rest, FreshParser, n').value.pos == |Taken(t, depth, input, FreshParser, n)|
  {
    hide Run, Prompt, Taken, NeverDrops;
    PosAtMost(t, depth, input, FreshParser, n);
    var q := Run(t, depth, input, FreshParser, n).value;
    var w := Taken(t, depth, input, FreshParser, n);
    var rest := w + input[q.pos..];
    assert rest[0..] == rest;
    n' := LeavingOut(t, depth, input, FreshParser, n, false, rest, FreshParser);
    var q' := Run(t, depth, rest, FreshParser, n').value;
    assert |rest[q'.pos..]| == |input[q.pos..]|;
  }

  // ---------------------------------------------------------------------------
  // The tokens kept

  /** The tokens read since the parse began and not thrown away. */
  ghost function Held(t: Tables, depth: nat, input: seq<nat>, n: nat): seq<nat> {
    if n == 0 then []
    else
      var p, q := Run(t, depth, input, FreshParser, n - 1), Run(t, depth, input, FreshParser, n);
      if p.None? || q.None? || p.value.pos >= |input| then Held(t, depth, input, n - 1)
      else
        (if p.value.stack == [] then [] else Held(t, depth, input, n - 1))
        + if q.value.pos > p.value.pos && !Drops(t, input, p.value) then [input[p.value.pos]] else []
  }

  lemma StepKeepsTokens(t: Tables, depth: nat, input: seq<nat>, p: Parser)
    requires p.pos < |input| && Step(t, depth, input, p).Some? && Step(t, depth, input, p).value.stack != []
    ensures var q := Step(t, depth, input, p).value;
            Kept(q.stack) == Kept(Base(p)) + if q.pos > p.pos && !Drops(t, input, p) then [input[p.pos]] else []
  {
    hide FindShiftAction, FindReduceAction, Kept;
    var q, s := Step(t, depth, input, p).value, Base(p);
    var f := FindShiftAction(t, s[|s| - 1].stateno, input[p.pos]).value;
    if f < t.nstate {
      KeptPush(s, Entry(f, input[p.pos], Leaf(input[p.pos])));
    } else if f < t.nstate + t.nrule {
      var base := |s| - t.ruleInfo[f - t.nstate].1;
      KeptSplit(s, base);
      KeptPush(s[..base], q.stack[base]);
      assert q.stack == s[..base] + [q.stack[base]];
    }
  }

  lemma KeptBottom()
    ensures Kept([Entry(0, 0, Leaf(0))]) == []
  {
    assert [Entry(0, 0, Leaf(0))][1..] == [];
  }

  /** What the trees on the stack have for leaves is what was read since the parse began,
      without the tokens in error: nothing else is lost. */
  lemma {:induction false} OnlyErrorsLost(t: Tables, depth: nat, input: seq<nat>, n: nat)
    requires Run(t, depth, input, FreshParser, n).Some? && Run(t, depth, input, FreshParser, n).value.stack != []
    ensures Kept(Run(t, depth, input, FreshParser, n).value.stack) == Held(t, depth, input, n)
    decreases n
  {
    hide Step, Kept, Drops;
    if n == 0 {
      NoneMade(t, depth, input, FreshParser);
    } else {
      RunLast(t, depth, input, FreshParser, n - 1);
      var p := Run(t, depth, input, FreshParser, n - 1).value;
      KeptBottom();
      if p.stack != [] { OnlyErrorsLost(t, depth, input, n - 1); }
      if p.pos < |input| {
        StepKeepsTokens(t, depth, input, p);
      } else {
        PosGrows(t, depth, input, p, 1);
      }
    }
  }

  // ---------------------------------------------------------------------------
  // What is reported

  /** How many tokens have been shifted since the last error of the current parse; None if
      it has had no error. */
  ghost function SinceError(t: Tables, depth: nat, input: seq<nat>, n: nat): Option<nat> {
    if n == 0 then None
    else
      var p := Run(t, depth, input, FreshParser, n - 1);
      if p.None? || p.value.pos >= |input| then SinceError(t, depth, input, n - 1)
      else
        var before := if p.value.stack == [] then None else SinceError(t, depth, input, n - 1);
        if AtError(t, input, p.value) then Some(0)
        else if ShiftsNext(t, input, p.value) && before.Some? then Some(before.value + 1)
        else before
  }

  ghost predicate CountMeans(errcnt: int, since: Option<nat>) {
    match since
    case None => errcnt < 0
    case Some(m) => errcnt == 3 - m
  }

  lemma StepCounts(t: Tables, depth: nat, input: seq<nat>, p: Parser, before: Option<nat>)
    requires p.pos < |input| && Step(t, depth, input, p).Some? && Step(t, depth, input, p).value.stack != []
    requires if p.stack == [] then before == None else CountMeans(p.errcnt, before)
    ensures var q := Step(t, depth, input, p).value;
            CountMeans(q.errcnt, if AtError(t, input, p) then Some(0)
                                 else if ShiftsNext(t, input, p) && before.Some? then Some(before.value + 1)
                                 else before)
  {
    hide FindShiftAction, FindReduceAction;
  }

  /** `yyerrcnt` counts them. */
  lemma {:induction false} CountIsSinceError(t: Tables, depth: nat, input: seq<nat>, n: nat)
    requires Run(t, depth, input, FreshParser, n).Some? && Run(t, depth, input, FreshParser, n).value.stack != []
    ensures CountMeans(Run(t, depth, input, FreshParser, n).value.errcnt, SinceError(t, depth, input, n))
    decreases n
  {
    hide Step, AtError, ShiftsNext;
    if n == 0 {
      NoneMade(t, depth, input, FreshParser);
    } else {
      RunLast(t, depth, input, FreshParser, n - 1);
      var p := Run(t, depth, input, FreshParser, n - 1).value;
      if p.stack != [] { CountIsSinceError(t, depth, input, n - 1); }
      if p.pos < |input| {
        StepCounts(t, depth, input, p, if p.stack == [] then None else SinceError(t, depth, input, n - 1));
      } else {
        PosGrows(t, depth, input, p, 1);
      }
    }
  }

  /** An error is reported unless fewer than three tokens were shifted since the last one. */
  ghost predicate Reports(since: Option<nat>) { since.None? || since.value >= 3 }

  lemma StepLogs(t: Tables, depth: nat, input: seq<nat>, p: Parser)
    requires p.pos < |input| && Step(t, depth, input, p).Some?
    ensures var q := Step(t, depth, input, p).value; var tok := input[p.pos];
            if AtError(t, input, p) then
              && q.log == p.log + (if p.stack == [] || p.errcnt <= 0 then [SyntaxError(tok)] else [])
                                + (if tok == 0 then [ParseFailed] else [])
              && (tok == 0 ==> q.stack == []) && q.pos == p.pos + 1
            else p.log <= q.log && forall i :: |p.log| <= i < |q.log| ==> q.log[i].Accept? || q.log[i].StackOverflow?
  {
    hide FindShiftAction, FindReduceAction;
  }

  /** At every moment of every run: a syntax error is logged exactly if the tables answer
      with the error action and at least three tokens were shifted since the last error of
      this parse, or it has had none; and a failure exactly if that is so at the end of
      the input, and then the stack is empty. */
  lemma ErrorsLogged(t: Tables, depth: nat, input: seq<nat>, n: nat)
    requires Run(t, depth, input, FreshParser, n + 1).Some?
    ensures Run(t, depth, input, FreshParser, n).Some?
    ensures var p, q := Run(t, depth, input, FreshParser, n).value, Run(t, depth, input, FreshParser, n + 1).value;
            var since := if p.stack == [] then None else SinceError(t, depth, input, n);
            if AtError(t, input, p) then
              && q.log == p.log + (if Reports(since) then [SyntaxError(input[p.pos])] else [])
                                + (if input[p.pos] == 0 then [ParseFailed] else [])
              && q.stack == (if input[p.pos] == 0 then [] else Base(p)) && q.pos == p.pos + 1
            else p.log <= q.log && forall i :: |p.log| <= i < |q.log| ==> q.log[i].Accept? || q.log[i].StackOverflow?
  {
    hide Step, Answer, Run, Base;
    RunLast(t, depth, input, FreshParser, n);
    var p := Run(t, depth, input, FreshParser, n).value;
    if p.stack != [] { CountIsSinceError(t, depth, input, n); }
    if p.pos < |input| {
      StepLogs(t, depth, input, p);
      if Drops(t, input, p) { DropStep(t, depth, input, p); }
    } else {
      PosGrows(t, depth, input, p, 1);
    }
  }
}
