/** Exactly when the parser of a grammar without conflicts is exact: if and only if it
    reduces wherever a rule ends in a parse of a sentence. Where all nonterminals derive
    some token string, those places are what the lookahead sets with the right lambda
    flags say. */
module Exactness {
  import opened Options
  import opened Grammars
  import opened FirstSets
  import opened Automata
  import opened ActionLists
  import opened Champions
  import opened Driver
  import opened Soundness
  import opened Completeness
  import opened Prefix
  import opened Generator
  import opened Termination
  import opened EndToEnd

  // ---------------------------------------------------------------------------
  // The moves that build a tree

  datatype Move = Shifted(token: nat) | Reduced(rule: nat)

  /** Bottom up and from left to right. */
  function Post(t: Tree): seq<Move>
    decreases t, 1
  {
    match t
    case Leaf(x) => [Shifted(x)]
    case Branch(r, ch) => Posts(ch) + [Reduced(r)]
  }

  function Posts(ts: seq<Tree>): seq<Move>
    decreases ts, 0
  {
    if ts == [] then [] else Post(ts[0]) + Posts(ts[1..])
  }

  lemma {:induction false} PostsAppend(a: seq<Tree>, b: seq<Tree>)
    ensures Posts(a + b) == Posts(a) + Posts(b)
  {
    if a == [] {
      assert a + b == b;
    } else {
      assert (a + b)[1..] == a[1..] + b;
      PostsAppend(a[1..], b);
    }
  }

  lemma PostsOne(t: Tree)
    ensures Posts([t]) == Post(t)
  {
    assert [t][1..] == [];
  }

  /** Carrying the moves out on a stack of trees. */
  function Exec(g: Grammar, ms: seq<Move>, st: seq<Tree>): seq<Tree>
    decreases |ms|
  {
    if ms == [] then st
    else match ms[0] {
      case Shifted(x) => Exec(g, ms[1..], st + [Leaf(x)])
      case Reduced(r) =>
        if r < |g.rules| && |g.rules[r].rhs| <= |st| then
          var base := |st| - |g.rules[r].rhs|;
          Exec(g, ms[1..], st[..base] + [Branch(r, st[base..])])
        else st
    }
  }

  /** The moves of a tree put exactly that tree on the stack. */
  lemma {:induction false} ExecPost(g: Grammar, t: Tree, rest: seq<Move>, st: seq<Tree>)
    requires ValidTree(g, t)
    ensures Exec(g, Post(t) + rest, st) == Exec(g, rest, st + [t])
    decreases t, 1
  {
    match t
    case Leaf(x) =>
      assert ([Shifted(x)] + rest)[1..] == rest;
    case Branch(r, ch) =>
      var ms := [Reduced(r)] + rest;
      assert Post(t) + rest == Posts(ch) + ms;
      ExecPosts(g, ch, ms, st);
      assert ms[1..] == rest;
      assert |ch| == |Roots(g, ch)| == |g.rules[r].rhs|;
      assert (st + ch)[..|st|] == st && (st + ch)[|st|..] == ch;
  }

  lemma {:induction false} ExecPosts(g: Grammar, ts: seq<Tree>, rest: seq<Move>, st: seq<Tree>)
    requires ValidForest(g, ts)
    ensures Exec(g, Posts(ts) + rest, st) == Exec(g, rest, st + ts)
    decreases ts, 0
  {
    if ts == [] {
      assert Posts(ts) + rest == rest && st + ts == st;
    } else {
      assert Posts(ts) + rest == Post(ts[0]) + (Posts(ts[1..]) + rest);
      ExecPost(g, ts[0], Posts(ts[1..]) + rest, st);
      ExecPosts(g, ts[1..], rest, st + [ts[0]]);
      assert (st + [ts[0]]) + ts[1..] == st + ts;
    }
  }

  /** So the moves determine the trees. */
  lemma PostsDetermine(g: Grammar, ts: seq<Tree>, us: seq<Tree>)
    requires ValidForest(g, ts) && ValidForest(g, us) && Posts(ts) == Posts(us)
    ensures ts == us
  {
    ExecPosts(g, ts, [], []);
    ExecPosts(g, us, [], []);
    assert Posts(ts) + [] == Posts(ts) && [] + ts == ts && [] + us == us;
  }

  // ---------------------------------------------------------------------------
  // Spots in a tree

  /** A path of child numbers leads to a node. */
  predicate PathOk(t: Tree, p: seq<nat>)
    decreases |p|
  {
    p == [] || (t.Branch? && p[0] < |t.children| && PathOk(t.children[p[0]], p[1..]))
  }

  function Sub(t: Tree, p: seq<nat>): Tree
    requires PathOk(t, p)
    decreases |p|
  {
    if p == [] then t else Sub(t.children[p[0]], p[1..])
  }

  /** The trees to the left of the node, which are on the stack when it is begun. */
  function LeftOf(t: Tree, p: seq<nat>): seq<Tree>
    requires PathOk(t, p)
    decreases |p|
  {
    if p == [] then [] else t.children[..p[0]] + LeftOf(t.children[p[0]], p[1..])
  }

  /** What is to the right of the node. */
  function After(t: Tree, p: seq<nat>): seq<nat>
    requires PathOk(t, p)
    decreases |p|
  {
    if p == [] then [] else After(t.children[p[0]], p[1..]) + Yields(t.children[p[0] + 1..])
  }

  /** The tree with another one in the place of the node. */
  function Replaced(t: Tree, p: seq<nat>, u: Tree): Tree
    requires PathOk(t, p)
    decreases |p|
  {
    if p == [] then u
    else Branch(t.rule, t.children[p[0] := Replaced(t.children[p[0]], p[1..], u)])
  }

  lemma SplitChildren(ch: seq<Tree>, i: nat)
    requires i < |ch|
    ensures Yields(ch) == Yields(ch[..i]) + Yield(ch[i]) + Yields(ch[i + 1..])
    ensures Posts(ch) == Posts(ch[..i]) + Post(ch[i]) + Posts(ch[i + 1..])
  {
    hide Yields, Yield, Posts, Post;
    ChildrenAround(ch, i);
    AroundYields(ch[..i], ch[i], ch[i + 1..]);
    AroundPosts(ch[..i], ch[i], ch[i + 1..]);
  }

  lemma ChildrenAround(ch: seq<Tree>, i: nat)
    requires i < |ch|
    ensures ch == ch[..i] + [ch[i]] + ch[i + 1..]
  {
  }

  lemma AroundYields(left: seq<Tree>, c: Tree, right: seq<Tree>)
    ensures Yields(left + [c] + right) == Yields(left) + Yield(c) + Yields(right)
  {
    hide Yields, Yield;
    YieldsAppend(left + [c], right);
    YieldsAppend(left, [c]);
    YieldsOne(c);
  }

  lemma AroundPosts(left: seq<Tree>, c: Tree, right: seq<Tree>)
    ensures Posts(left + [c] + right) == Posts(left) + Post(c) + Posts(right)
  {
    hide Posts, Post;
    PostsAppend(left + [c], right);
    PostsAppend(left, [c]);
    PostsOne(c);
  }

  lemma {:induction false} SubValid(g: Grammar, t: Tree, p: seq<nat>)
    requires ValidTree(g, t) && PathOk(t, p)
    ensures ValidTree(g, Sub(t, p)) && ValidForest(g, LeftOf(t, p))
    decreases |p|
  {
    if p != [] { SubValid(g, t.children[p[0]], p[1..]); }
  }

  lemma {:induction false} SubYield(t: Tree, p: seq<nat>)
    requires PathOk(t, p)
    ensures Yield(t) == Yields(LeftOf(t, p)) + Yield(Sub(t, p)) + After(t, p)
    decreases |p|
  {
    hide Yields, Yield;
    if p == [] {
      NoYields();
    } else {
      var i, q := p[0], p[1..];
      var c := t.children[i];
      SubYield(c, q);
      NodeYield(t, i);
      YieldsAppend(t.children[..i], LeftOf(c, q));
      Regroup(Yields(t.children[..i]), Yields(LeftOf(c, q)), Yield(Sub(c, q)), After(c, q),
        Yields(t.children[i + 1..]));
    }
  }

  lemma Regroup(a: seq<nat>, b: seq<nat>, c: seq<nat>, d: seq<nat>, e: seq<nat>)
    ensures a + (b + c + d) + e == (a + b) + c + (d + e)
  {
  }

  lemma NoYields()
    ensures Yields([]) == []
  {
  }

  /** The moves up to a node: those of the trees left of it, then its own. */
  lemma {:induction false} MovesUpto(t: Tree, p: seq<nat>)
    requires PathOk(t, p)
    ensures Posts(LeftOf(t, p)) + Post(Sub(t, p)) <= Post(t)
    decreases |p|
  {
    if p == [] {
      assert Posts([]) + Post(t) == Post(t);
    } else {
      var i, q := p[0], p[1..];
      var c := t.children[i];
      MovesUpto(c, q);
      SplitChildren(t.children, i);
      PostsAppend(t.children[..i], LeftOf(c, q));
      var left, ms := Posts(t.children[..i]), Posts(LeftOf(c, q)) + Post(Sub(c, q));
      assert Posts(LeftOf(t, p)) + Post(Sub(t, p)) == left + ms;
      assert left + ms <= left + Post(c);
      assert left + Post(c) <= Post(t);
    }
  }

  /** Replacing a node by one for the same symbol. */
  lemma {:induction false} ReplacedValid(g: Grammar, t: Tree, p: seq<nat>, u: Tree)
    requires ValidTree(g, t) && PathOk(t, p) && ValidTree(g, u) && Root(g, u) == Root(g, Sub(t, p))
    ensures ValidTree(g, Replaced(t, p, u)) && Root(g, Replaced(t, p, u)) == Root(g, t)
    ensures PathOk(Replaced(t, p, u), p) && Sub(Replaced(t, p, u), p) == u
    ensures LeftOf(Replaced(t, p, u), p) == LeftOf(t, p) && After(Replaced(t, p, u), p) == After(t, p)
    decreases |p|
  {
    if p != [] {
      var i, q := p[0], p[1..];
      var c := t.children[i];
      ReplacedValid(g, c, q, u);
      var d := Replaced(c, q, u);
      var ch := t.children[i := d];
      assert Roots(g, ch) == Roots(g, t.children) by {
        forall k | 0 <= k < |ch| ensures Roots(g, ch)[k] == Roots(g, t.children)[k] {
        }
      }
      assert ch[..i] == t.children[..i] && ch[i + 1..] == t.children[i + 1..];
    }
  }

  /** Going on to a child of the node. */
  lemma {:induction false} PathExtend(t: Tree, p: seq<nat>, d: nat)
    requires PathOk(t, p) && Sub(t, p).Branch? && d < |Sub(t, p).children|
    ensures PathOk(t, p + [d]) && Sub(t, p + [d]) == Sub(t, p).children[d]
    ensures LeftOf(t, p + [d]) == LeftOf(t, p) + Sub(t, p).children[..d]
    ensures After(t, p + [d]) == Yields(Sub(t, p).children[d + 1..]) + After(t, p)
    decreases |p|
  {
    if p == [] {
      assert [d][1..] == [] && p + [d] == [d];
      assert After(t, [d]) == [] + Yields(t.children[d + 1..]);
    } else {
      assert (p + [d])[0] == p[0] && (p + [d])[1..] == p[1..] + [d];
      PathExtend(t.children[p[0]], p[1..], d);
    }
  }

  // ---------------------------------------------------------------------------
  // The moves of a run

  /** The move a turn makes, if it is no error. */
  function MoveAt(t: Tables, p: Parser, major: nat): Option<Move> {
    if p.stack == [] then None
    else
      var found := FindShiftAction(t, p.stack[|p.stack| - 1].stateno, major);
      if found.None? || found.value < 0 then None
      else if found.value < t.nstate then Some(Shifted(major))
      else if found.value < t.nstate + t.nrule then Some(Reduced(found.value - t.nstate))
      else None
  }

  /** The trees on the stack, without its bottom. */
  function Built(p: Parser): seq<Tree>
    requires p.stack != []
  {
    Minors(p.stack[1..])
  }

  /** Nothing has been logged or thrown away yet. */
  predicate Quiet(p: Parser) { p.stack != [] && p.errcnt <= 0 && p.discarded == 0 && p.log == [] && p.from == 0 }

  /** A turn after which nothing is logged makes a move, and the trees on the stack
      are those of the moves so far. */
  lemma QuietTurn(t: Tables, depth: nat, input: seq<nat>, p: Parser)
    requires Quiet(p) && p.pos < |input| && Step(t, depth, input, p).Some? && Step(t, depth, input, p).value.log == []
    ensures var q := Step(t, depth, input, p).value;
            MoveAt(t, p, input[p.pos]).Some? && Quiet(q) &&
              Posts(Built(q)) == Posts(Built(p)) + [MoveAt(t, p, input[p.pos]).value]
  {
    hide FindShiftAction, FindReduceAction, Posts;
    var q := Step(t, depth, input, p).value;
    var f := FindShiftAction(t, p.stack[|p.stack| - 1].stateno, input[p.pos]).value;
    if f < t.nstate {
      var e := Entry(f, input[p.pos], Leaf(input[p.pos]));
      assert q.stack == p.stack + [e];
      assert Built(q) == Built(p) + [e.minor];
      PostsAppend(Built(p), [e.minor]);
      PostsOne(e.minor);
    } else if f < t.nstate + t.nrule {
      ReduceBuilds(t, depth, input, p, f - t.nstate);
    } else {
      ErrorLogged(t, depth, input, p);
    }
  }

  lemma ErrorLogged(t: Tables, depth: nat, input: seq<nat>, p: Parser)
    requires Quiet(p) && p.pos < |input| && Step(t, depth, input, p).Some?
    requires var f := FindShiftAction(t, p.stack[|p.stack| - 1].stateno, input[p.pos]);
             f.Some? && f.value >= t.nstate + t.nrule
    ensures Step(t, depth, input, p).value.log != []
  {
    hide FindShiftAction;
  }

  lemma ReduceBuilds(t: Tables, depth: nat, input: seq<nat>, p: Parser, r: nat)
    requires Quiet(p) && p.pos < |input| && Step(t, depth, input, p).Some? && Step(t, depth, input, p).value.log == []
    requires FindShiftAction(t, p.stack[|p.stack| - 1].stateno, input[p.pos]) == Some(t.nstate + r) && r < t.nrule
    ensures var q := Step(t, depth, input, p).value;
            Quiet(q) && Posts(Built(q)) == Posts(Built(p)) + [Reduced(r)]
  {
    hide FindShiftAction, FindReduceAction, Posts;
    var q := Step(t, depth, input, p).value;
    var base := |p.stack| - t.ruleInfo[r].1;
    assert q.stack == p.stack[..base] + [q.stack[|q.stack| - 1]];
    assert q.stack[|q.stack| - 1].minor == Branch(r, Minors(p.stack[base..]));
    ReducedPosts(p.stack, q.stack, base, r);
  }

  lemma ReducedPosts(stack: seq<Entry>, after: seq<Entry>, base: nat, r: nat)
    requires 0 < base <= |stack| && |after| == base + 1 && after[..base] == stack[..base]
    requires after[base].minor == Branch(r, Minors(stack[base..]))
    ensures Posts(Minors(after[1..])) == Posts(Minors(stack[1..])) + [Reduced(r)]
  {
    hide Posts;
    var low, ch, e := stack[1..base], Minors(stack[base..]), after[base];
    assert stack[1..] == low + stack[base..] && after[1..] == low + [e]
      by { assert after[1..base] == after[..base][1..]; }
    assert Minors(stack[1..]) == Minors(low) + ch && Minors(after[1..]) == Minors(low) + [e.minor];
    PostsAppend(Minors(low), ch);
    PostsAppend(Minors(low), [e.minor]);
    PostsOne(e.minor);
    PostBranch(r, ch);
  }

  lemma PostBranch(r: nat, ch: seq<Tree>)
    ensures Post(Branch(r, ch)) == Posts(ch) + [Reduced(r)]
  {
  }

  // ---------------------------------------------------------------------------
  // The run that accepts a tree

  ghost predicate QuietAt(t: Tables, depth: nat, input: seq<nat>, k: nat) {
    var q := Run(t, depth, input, BegunParser, k);
    q.Some? && q.value.log == [] && q.value.pos < |input|
  }

  ghost function At(t: Tables, depth: nat, input: seq<nat>, k: nat): Parser
    requires QuietAt(t, depth, input, k)
  {
    Run(t, depth, input, BegunParser, k).value
  }

  lemma EarlierQuiet(t: Tables, depth: nat, input: seq<nat>, k: nat)
    requires QuietAt(t, depth, input, k) && k > 0
    ensures QuietAt(t, depth, input, k - 1)
    ensures Step(t, depth, input, At(t, depth, input, k - 1)) == Some(At(t, depth, input, k))
  {
    hide Step;
    RunLast(t, depth, input, BegunParser, k - 1);
    var p := Run(t, depth, input, BegunParser, k - 1).value;
    LogGrows(t, depth, input, p, 1);
    PosGrows(t, depth, input, p, 1);
  }

  /** As long as nothing is logged, each step makes one move. */
  lemma {:induction false} QuietRun(t: Tables, depth: nat, input: seq<nat>, k: nat)
    requires QuietAt(t, depth, input, k)
    ensures Quiet(At(t, depth, input, k)) && |Posts(Built(At(t, depth, input, k)))| == k
    decreases k
  {
    hide Step, Run, Posts;
    if k == 0 {
      RunNone(t, depth, input);
    } else {
      EarlierQuiet(t, depth, input, k);
      QuietRun(t, depth, input, k - 1);
      QuietTurn(t, depth, input, At(t, depth, input, k - 1));
    }
  }

  lemma RunNone(t: Tables, depth: nat, input: seq<nat>)
    ensures Run(t, depth, input, BegunParser, 0) == Some(BegunParser) && Posts(Built(BegunParser)) == []
  {
    assert BegunParser.stack[1..] == [];
  }

  /** The moves of a shorter run are the first moves of a longer one. */
  lemma {:induction false} FirstMoves(t: Tables, depth: nat, input: seq<nat>, j: nat, k: nat)
    requires QuietAt(t, depth, input, k) && j <= k
    ensures QuietAt(t, depth, input, j) && Quiet(At(t, depth, input, j)) && Quiet(At(t, depth, input, k))
    ensures |Posts(Built(At(t, depth, input, k)))| == k
    ensures Posts(Built(At(t, depth, input, j))) == Posts(Built(At(t, depth, input, k)))[..j]
    ensures j < k ==>
              MoveAt(t, At(t, depth, input, j), input[At(t, depth, input, j).pos])
              == Some(Posts(Built(At(t, depth, input, k)))[j])
    decreases k
  {
    hide Step, Run, Posts, MoveAt;
    QuietRun(t, depth, input, k);
    if j < k {
      EarlierQuiet(t, depth, input, k);
      FirstMoves(t, depth, input, j, k - 1);
      QuietTurn(t, depth, input, At(t, depth, input, k - 1));
    }
  }

  /** The run that ends with an accept: one step for each move of its tree. */
  lemma AcceptRun(g: Grammar, b: Automaton, l: Lookaheads, t: Tables, depth: nat, w: seq<nat>, tree: Tree, n: nat)
    returns (k: nat)
    requires Generated(g, b, l, t) && depth > 0 && TokensOnly(g, w) && AcceptsWith(t, depth, w, tree, n)
    ensures QuietAt(t, depth, w + [0], k) && Quiet(At(t, depth, w + [0], k))
    ensures tree.Branch? && Post(tree) == Posts(Built(At(t, depth, w + [0], k))) + [Reduced(tree.rule)]
    ensures MoveAt(t, At(t, depth, w + [0], k), (w + [0])[At(t, depth, w + [0], k).pos]) == Some(Reduced(tree.rule))
  {
    hide Step, Run, Generated, Posts, MoveAt;
    var input := w + [0];
    assert n > 0 by { RunNone(t, depth, input); FreshRun(t, depth, input, n); }
    FreshRun(t, depth, input, n);
    k := LastQuiet(t, depth, input, n);
    QuietRun(t, depth, input, k);
    var p := At(t, depth, input, k);
    InputFrom(g, b, l, t, w);
    ReachedOk(g, b, l, t, depth, input, k);
    var q := Step(t, depth, input, p).value;
    LogGrowsTo(t, depth, input, k + 1, n);
    assert q.log == [Accept(tree, 0, |w|, 0)];
    AcceptTurn(g, b, l, t, depth, input, p, tree, |w|);
  }

  lemma InputFrom(g: Grammar, b: Automaton, l: Lookaheads, t: Tables, w: seq<nat>)
    requires Generated(g, b, l, t) && TokensOnly(g, w)
    ensures InputOk(g, w + [0])
  {
    hide IsAutomaton, TablesFor;
    InputIsOk(g, w);
  }

  lemma FreshRun(t: Tables, depth: nat, input: seq<nat>, n: nat)
    requires input != []
    ensures n > 0 ==> Run(t, depth, input, FreshParser, n) == Run(t, depth, input, BegunParser, n)
    ensures Run(t, depth, input, FreshParser, 0) == Some(FreshParser)
  {
    hide Step;
    if n > 0 { RunInitialised(t, depth, input, FreshParser, n); }
  }

  /** The last moment before anything is logged. */
  lemma {:induction false} LastQuiet(t: Tables, depth: nat, input: seq<nat>, n: nat) returns (k: nat)
    requires input != [] && Run(t, depth, input, BegunParser, n).Some?
    requires Run(t, depth, input, BegunParser, n).value.log != []
    ensures k < n && QuietAt(t, depth, input, k)
    ensures Step(t, depth, input, At(t, depth, input, k)) == Run(t, depth, input, BegunParser, k + 1)
    ensures Run(t, depth, input, BegunParser, k + 1).Some? && Run(t, depth, input, BegunParser, k + 1).value.log != []
    decreases n
  {
    hide Step, Run;
    RunNone(t, depth, input);
    assert n > 0;
    RunLast(t, depth, input, BegunParser, n - 1);
    var p := Run(t, depth, input, BegunParser, n - 1).value;
    if p.log != [] {
      k := LastQuiet(t, depth, input, n - 1);
    } else {
      k := n - 1;
      StillReading(t, depth, input, p);
    }
  }

  lemma StillReading(t: Tables, depth: nat, input: seq<nat>, p: Parser)
    requires Step(t, depth, input, p).Some? && Step(t, depth, input, p).value.log != p.log
    ensures p.pos < |input|
  {
    hide Iterate;
  }

  lemma LogGrowsTo(t: Tables, depth: nat, input: seq<nat>, m: nat, n: nat)
    requires m <= n && Run(t, depth, input, BegunParser, m).Some? && Run(t, depth, input, BegunParser, n).Some?
    ensures Run(t, depth, input, BegunParser, m).value.log <= Run(t, depth, input, BegunParser, n).value.log
  {
    hide Step;
    RunAppend(t, depth, input, BegunParser, m, n - m);
    LogGrows(t, depth, input, Run(t, depth, input, BegunParser, m).value, n - m);
  }

  lemma ReachedOk(g: Grammar, b: Automaton, l: Lookaheads, t: Tables, depth: nat, input: seq<nat>, k: nat)
    requires Generated(g, b, l, t) && InputOk(g, input) && QuietAt(t, depth, input, k)
    ensures RunOk(g, b, input, At(t, depth, input, k))
  {
    hide Run, TablesFor, IsAutomaton;
    BegunOk(g, b, input);
    RunSound(g, b, l, t, depth, input, BegunParser, k);
  }

  lemma BegunOk(g: Grammar, b: Automaton, input: seq<nat>)
    requires IsAutomaton(g, b)
    ensures RunOk(g, b, input, BegunParser)
  {
    assert BegunParser.stack[1..] == [];
    assert input[0..0] == [];
  }

  /** The turn that accepts takes all that is on the stack. */
  lemma AcceptTurn(g: Grammar, b: Automaton, l: Lookaheads, t: Tables, depth: nat, input: seq<nat>, p: Parser,
                   tree: Tree, n: nat)
    requires Generated(g, b, l, t) && RunOk(g, b, input, p) && Quiet(p) && p.pos < |input| && InputOk(g, input)
    requires Step(t, depth, input, p).Some? && Step(t, depth, input, p).value.log == [Accept(tree, 0, n, 0)]
    ensures tree.Branch? && Post(tree) == Posts(Built(p)) + [Reduced(tree.rule)]
    ensures MoveAt(t, p, input[p.pos]) == Some(Reduced(tree.rule))
  {
    hide FindShiftAction, FindReduceAction, Posts, IsAutomaton, ValidTree;
    var s := p.stack[|p.stack| - 1].stateno;
    assert TokenActionOk(g, b, l, t, s, input[p.pos]);
    var r := AcceptsBy(t, depth, input, p, tree, n);
    assert ReduceOk(g, b, l, s, input[p.pos], r);
    WholeStack(g, b, l, t, p.stack, input[p.pos], r);
    PostBranch(r, Built(p));
  }

  lemma AcceptsBy(t: Tables, depth: nat, input: seq<nat>, p: Parser, tree: Tree, n: nat) returns (r: nat)
    requires Quiet(p) && p.pos < |input| && Step(t, depth, input, p).Some?
    requires Step(t, depth, input, p).value.log == [Accept(tree, 0, n, 0)]
    ensures r < t.nrule && r < |t.ruleInfo| && t.ruleInfo[r].1 < |p.stack|
    ensures FindShiftAction(t, p.stack[|p.stack| - 1].stateno, input[p.pos]) == Some(t.nstate + r)
    ensures tree == Branch(r, Minors(p.stack[|p.stack| - t.ruleInfo[r].1..]))
    ensures FindReduceAction(t, p.stack[|p.stack| - t.ruleInfo[r].1 - 1].stateno, t.ruleInfo[r].0) ==
            Some(AcceptAction(t))
  {
    hide FindShiftAction, FindReduceAction;
    assert Step(t, depth, input, p).value.log[0].Accept?;
    r := FindShiftAction(t, p.stack[|p.stack| - 1].stateno, input[p.pos]).value - t.nstate;
  }

  /** Only a start rule is accepted, and it lies at the bottom of the stack. */
  lemma WholeStack(g: Grammar, b: Automaton, l: Lookaheads, t: Tables, stack: seq<Entry>, tok: nat, r: nat)
    requires Generated(g, b, l, t) && StackOk(g, b, stack) && stack != []
    requires ReduceOk(g, b, l, stack[|stack| - 1].stateno, tok, r) && t.ruleInfo[r].1 < |stack|
    requires FindReduceAction(t, stack[|stack| - t.ruleInfo[r].1 - 1].stateno, t.ruleInfo[r].0) == Some(AcceptAction(t))
    ensures |stack| - t.ruleInfo[r].1 == 1
  {
    hide FindReduceAction, ValidTree;
    HandleOnStack(g, b, stack, r);
    var i := |stack| - |g.rules[r].rhs| - 1;
    RuleStart(g, b, stack, i, r);
    assert t.ruleInfo[r] == (g.rules[r].lhs, |g.rules[r].rhs|);
    assert StateOk(g, b, stack[i].stateno);
    if !g.IsStartRule(r) {
      GotoFound(g, b, l, t, stack[i].stateno, r);
    }
  }

  // ---------------------------------------------------------------------------
  // Where a token follows a rule

  /** The states on a stack are those its symbols lead to. */
  lemma {:induction false} StackWalk(g: Grammar, b: Automaton, stack: seq<Entry>, i: nat)
    requires StackOk(g, b, stack) && i < |stack|
    ensures Walk(b, 0, Roots(g, Minors(stack[1..i + 1]))) == stack[i].stateno
    decreases i
  {
    hide ValidTree;
    if i == 0 {
      assert stack[1..1] == [];
      assert Roots(g, Minors([])) == [];
    } else {
      StackWalk(g, b, stack, i - 1);
      assert stack[1..i + 1] == stack[1..i] + [stack[i]];
      assert Roots(g, Minors(stack[1..i + 1])) == Roots(g, Minors(stack[1..i])) + [stack[i].major];
      WalkAppend(b, 0, Roots(g, Minors(stack[1..i])), stack[i].major);
      assert Linked(b, stack[i - 1], stack[i]);
    }
  }

  /** In a parse, the node at the end of the path has got as far as `it` in state `s`,
      and `tok` is what comes after the node. */
  ghost predicate Spot(g: Grammar, b: Automaton, tree: Tree, path: seq<nat>, s: nat, it: Item, tok: nat) {
    && IsParse(g, tree, Yield(tree)) && TokensOnly(g, Yield(tree)) && PathOk(tree, path)
    && Sub(tree, path).Branch? && it.rule == Sub(tree, path).rule && it.dot <= |Sub(tree, path).children|
    && Walk(b, 0, Roots(g, LeftOf(tree, path) + Sub(tree, path).children[..it.dot])) == s
    && tok == (After(tree, path) + [0])[0]
  }

  /** So it is in some parse of some sentence. */
  ghost predicate Occurs(g: Grammar, b: Automaton, s: nat, it: Item, tok: nat) {
    exists tree, path :: Spot(g, b, tree, path, s, it, tok)
  }

  /** Wherever a rule ends in a parse of a sentence, the tables call for reducing it. */
  ghost predicate ReducesThere(g: Grammar, b: Automaton, t: Tables) {
    forall s: nat, it: Item, tok: nat ::
      Occurs(g, b, s, it, tok) && s < |b| && it in b[s].items && IsComplete(g, it) ==>
        FindShiftAction(t, s, tok) == Some(t.nstate + it.rule)
  }

  // ---------------------------------------------------------------------------
  // An exact parser reduces them all

  /** The moment of the run that accepts a tree when a node of it is about to be built. */
  lemma NodeMoment(g: Grammar, b: Automaton, l: Lookaheads, t: Tables, depth: nat, tree: Tree, n: nat, path: seq<nat>)
    returns (j: nat)
    requires Generated(g, b, l, t) && depth > 0 && TokensOnly(g, Yield(tree))
    requires AcceptsWith(t, depth, Yield(tree), tree, n)
    requires PathOk(tree, path) && Sub(tree, path).Branch?
    ensures QuietAt(t, depth, Yield(tree) + [0], j) && Quiet(At(t, depth, Yield(tree) + [0], j))
    ensures var input, v := Yield(tree) + [0], Sub(tree, path);
            var p := At(t, depth, input, j);
            && Posts(Built(p)) == Posts(LeftOf(tree, path) + v.children)
            && MoveAt(t, p, input[p.pos]) == Some(Reduced(v.rule))
  {
    hide Generated, AcceptsWith, Run, Posts, Post, PathOk, Sub, LeftOf, MoveAt, Quiet, Yield;
    var input, v := Yield(tree) + [0], Sub(tree, path);
    var before := LeftOf(tree, path) + v.children;
    var k := AcceptRun(g, b, l, t, depth, Yield(tree), tree, n);
    NodeMoves(tree, path);
    j := |Posts(before)|;
    PrefixFacts(Posts(before), Reduced(v.rule), Post(tree));
    QuietRun(t, depth, input, k);
    FirstMoves(t, depth, input, j, k);
  }

  /** At a node of an accepted tree, the parser reduced its rule. */
  lemma AcceptedSpot(g: Grammar, b: Automaton, l: Lookaheads, t: Tables, depth: nat, tree: Tree, n: nat,
                     path: seq<nat>, s: nat, it: Item, tok: nat)
    requires Generated(g, b, l, t) && depth > 0
    requires Spot(g, b, tree, path, s, it, tok) && IsComplete(g, it) && AcceptsWith(t, depth, Yield(tree), tree, n)
    ensures s < |b| && FindShiftAction(t, s, tok) == Some(t.nstate + it.rule)
  {
    hide Generated, AcceptsWith, Run, Posts, Walk, ValidTree, Yields, FindShiftAction, StackOk;
    var w, v := Yield(tree), Sub(tree, path);
    var input, before := w + [0], LeftOf(tree, path) + v.children;
    var j := NodeMoment(g, b, l, t, depth, tree, n, path);
    var p := At(t, depth, input, j);
    InputFrom(g, b, l, t, w);
    ReachedOk(g, b, l, t, depth, input, j);
    BuiltIs(g, b, input, p, tree, path, before);
    SpotState(g, b, input, p, tree, path, s, it, tok, before);
  }

  lemma PrefixFacts(ms: seq<Move>, m: Move, all: seq<Move>)
    requires ms + [m] <= all
    ensures |ms| < |all| && all[..|ms|] == ms && all[|ms|] == m
  {
    assert (ms + [m])[|ms|] == m;
  }

  /** The moves before a node is finished, and the one that finishes it. */
  lemma NodeMoves(tree: Tree, path: seq<nat>)
    requires PathOk(tree, path) && Sub(tree, path).Branch?
    ensures Posts(LeftOf(tree, path) + Sub(tree, path).children) + [Reduced(Sub(tree, path).rule)] <= Post(tree)
  {
    hide Posts;
    var v := Sub(tree, path);
    MovesUpto(tree, path);
    PostsAppend(LeftOf(tree, path), v.children);
    PostBranch(v.rule, v.children);
  }

  /** The trees on the stack are those left of the node and its children. */
  lemma BuiltIs(g: Grammar, b: Automaton, input: seq<nat>, p: Parser, tree: Tree, path: seq<nat>, before: seq<Tree>)
    requires RunOk(g, b, input, p) && Quiet(p) && ValidTree(g, tree) && PathOk(tree, path) && Sub(tree, path).Branch?
    requires before == LeftOf(tree, path) + Sub(tree, path).children && Posts(Built(p)) == Posts(before)
    ensures Built(p) == before && StackOk(g, b, p.stack)
  {
    hide Posts, Yields;
    SubValid(g, tree, path);
    forall i | 0 <= i < |Built(p)| ensures ValidTree(g, Built(p)[i]) {
      assert Built(p)[i] == p.stack[i + 1].minor;
    }
    PostsDetermine(g, Built(p), before);
  }

  lemma SpotState(g: Grammar, b: Automaton, input: seq<nat>, p: Parser, tree: Tree, path: seq<nat>, s: nat, it: Item,
                  tok: nat, before: seq<Tree>)
    requires RunOk(g, b, input, p) && Quiet(p) && p.pos < |input| && input == Yield(tree) + [0]
    requires StackOk(g, b, p.stack)
    requires Spot(g, b, tree, path, s, it, tok) && IsComplete(g, it)
    requires before == LeftOf(tree, path) + Sub(tree, path).children
    requires Built(p) == before
    ensures s == p.stack[|p.stack| - 1].stateno && s < |b| && tok == input[p.pos]
  {
    hide Yields, Walk;
    var v := Sub(tree, path);
    SubValid(g, tree, path);
    assert |v.children| == |Roots(g, v.children)| == it.dot;
    assert v.children[..it.dot] == v.children;
    StackWalk(g, b, p.stack, |p.stack| - 1);
    assert p.stack[1..|p.stack|] == p.stack[1..];
    SubYield(tree, path);
    YieldsAppend(LeftOf(tree, path), v.children);
    assert Kept(p.stack) == Yields(before) && p.pos == |Yields(before)|;
    assert input == Yields(before) + (After(tree, path) + [0]);
  }

  lemma ExactReduces(g: Grammar, b: Automaton, l: Lookaheads, t: Tables)
    requires Generated(g, b, l, t) && ExactParser(g, t)
    ensures ReducesThere(g, b, t)
  {
    hide Generated, AcceptsWith, Walk, FindShiftAction, IsParse, StackNeed, Spot;
    forall s: nat, it: Item, tok: nat | Occurs(g, b, s, it, tok) && s < |b| && it in b[s].items && IsComplete(g, it)
      ensures FindShiftAction(t, s, tok) == Some(t.nstate + it.rule)
    {
      var tree, path :| Spot(g, b, tree, path, s, it, tok);
      SpotParse(g, b, tree, path, s, it, tok);
      var depth := StackNeed(tree) + 1;
      assert ParsesExactly(g, t, depth, Yield(tree), tree);
      var n :| AcceptsWith(t, depth, Yield(tree), tree, n);
      AcceptedSpot(g, b, l, t, depth, tree, n, path, s, it, tok);
    }
  }

  lemma SpotParse(g: Grammar, b: Automaton, tree: Tree, path: seq<nat>, s: nat, it: Item, tok: nat)
    requires Spot(g, b, tree, path, s, it, tok)
    ensures IsParse(g, tree, Yield(tree)) && TokensOnly(g, Yield(tree))
  {
  }

  // ---------------------------------------------------------------------------
  // The tokens that follow are closed under what the parser does

  /** What really follows, as lookahead sets. */
  ghost function OccLook(g: Grammar, b: Automaton): (m: Lookaheads)
    ensures |m| == |b|
  {
    seq(|b|, s requires 0 <= s < |b| =>
      map it | it in b[s].items :: set tok | tok in Numbers(g.nterminal) && Occurs(g, b, s, it, tok))
  }

  lemma OccAt(g: Grammar, b: Automaton, s: nat, it: Item, tok: nat)
    ensures tok in LookAt(OccLook(g, b), s, it) <==>
            s < |b| && it in b[s].items && tok < g.nterminal && Occurs(g, b, s, it, tok)
  {
    hide Occurs;
  }

  lemma SomeForest(g: Grammar, xs: seq<nat>) returns (ts: seq<Tree>)
    requires g.WellFormed() && Productive(g) && forall i :: 0 <= i < |xs| ==> 0 < xs[i] < g.NSymbol()
    ensures ValidForest(g, ts) && Roots(g, ts) == xs && TokensOnly(g, Yields(ts))
  {
    hide ValidTree;
    if xs == [] {
      ts := [];
    } else {
      var u := SomeTokens(g, xs[0]);
      var us := SomeForest(g, xs[1..]);
      ts := [u] + us;
      assert ts[1..] == us;
      assert Roots(g, ts) == [xs[0]] + Roots(g, us);
    }
  }

  /** Every rule has a tree over tokens. */
  lemma SomeNode(g: Grammar, r: nat) returns (u: Tree)
    requires g.WellFormed() && Productive(g) && r < |g.rules|
    ensures u.Branch? && u.rule == r && ValidTree(g, u) && TokensOnly(g, Yield(u))
  {
    assert g.RuleOk(g.rules[r]);
    var ts := SomeForest(g, g.rules[r].rhs);
    u := Branch(r, ts);
  }

  lemma AllFruitful(g: Grammar, r: nat)
    requires g.WellFormed() && Productive(g) && r < |g.rules|
    ensures Fruitful(g, r)
  {
    var u := SomeNode(g, r);
  }

  lemma FruitOf(g: Grammar, r: nat) returns (u: Tree)
    requires Fruitful(g, r)
    ensures u.Branch? && u.rule == r && ValidTree(g, u) && TokensOnly(g, Yield(u))
  {
    u :| ValidTree(g, u) && u.Branch? && u.rule == r && InputOk(g, Yield(u));
    forall i | 0 <= i < |Yield(u)| ensures 0 < Yield(u)[i] < g.nterminal {
      LeavesAreSymbols(g, u, i);
    }
  }

  lemma StartOccurs(g: Grammar, b: Automaton, it: Item)
    requires g.WellFormed() && Fruitful(g, it.rule) && IsAutomaton(g, b) && it in StartItems(g)
    ensures Occurs(g, b, 0, it, 0)
  {
    var u := FruitOf(g, it.rule);
    hide ValidTree, Yield, Yields;
    assert LeftOf(u, []) + u.children[..0] == [];
    assert Roots(g, []) == [];
    assert After(u, []) + [0] == [0];
    assert Spot(g, b, u, [], 0, it, 0);
  }

  lemma ShiftOccurs(g: Grammar, b: Automaton, s: nat, it: Item, tok: nat)
    requires Occurs(g, b, s, it, tok) && s < |b| && CanShift(g, it) && Next(g, it) in b[s].trans
    ensures Occurs(g, b, b[s].trans[Next(g, it)], Advance(it), tok)
  {
    var tree, path :| Spot(g, b, tree, path, s, it, tok);
    SubValid(g, tree, path);
    hide Yield, Yields, Walk;
    var v, left := Sub(tree, path), LeftOf(tree, path);
    assert Roots(g, v.children) == g.rules[it.rule].rhs;
    var d := it.dot;
    assert Roots(g, left + v.children[..d + 1]) == Roots(g, left + v.children[..d]) + [Next(g, it)] by {
      assert left + v.children[..d + 1] == (left + v.children[..d]) + [v.children[d]];
      assert Roots(g, v.children)[d] == Root(g, v.children[d]);
    }
    WalkAppend(b, 0, Roots(g, left + v.children[..d]), Next(g, it));
    assert Spot(g, b, tree, path, b[s].trans[Next(g, it)], Advance(it), tok);
  }

  /** The node with another continuation: a given rule for the next symbol, and given
      trees for the rest. */
  lemma Continued(g: Grammar, v: Tree, it: Item, r: nat, u: Tree, ts: seq<Tree>) returns (w: Tree)
    requires ValidTree(g, v) && v.Branch? && v.rule == it.rule && it.dot <= |v.children| && Calls(g, it, r)
    requires Continues(g, it, ts)
    requires ValidTree(g, u) && u.Branch? && u.rule == r
    ensures w.Branch? && w.rule == v.rule && ValidTree(g, w) && Root(g, w) == Root(g, v) && it.dot < |w.children|
    ensures w.children[..it.dot] == v.children[..it.dot] && w.children[it.dot] == u && w.children[it.dot + 1..] == ts
  {
    var d := it.dot;
    var front := v.children[..d];
    var ch := front + [u] + ts;
    assert Roots(g, v.children) == g.rules[v.rule].rhs;
    forall k | 0 <= k < |ch| ensures ValidTree(g, ch[k]) {
    }
    assert Roots(g, ch) == Roots(g, front) + [Root(g, u)] + Roots(g, ts);
    assert Roots(g, front) == g.rules[v.rule].rhs[..d] by {
      forall k | 0 <= k < d ensures Roots(g, front)[k] == g.rules[v.rule].rhs[k] {
        assert Roots(g, v.children)[k] == Root(g, front[k]);
      }
    }
    AfterDot(g, it);
    w := Branch(v.rule, ch);
  }

  /** A rule called for occurs with whatever can come after it. */
  lemma CallOccurs(g: Grammar, b: Automaton, s: nat, it: Item, tok: nat, r: nat, ts: seq<Tree>)
    requires g.WellFormed() && Fruitful(g, r) && Occurs(g, b, s, it, tok) && Calls(g, it, r) && Continues(g, it, ts)
    ensures Occurs(g, b, s, Item(r, 0), (Yields(ts) + [tok])[0])
  {
    hide ValidTree, Yield, Yields, Walk, Fruitful;
    var tree, path :| Spot(g, b, tree, path, s, it, tok);
    var u := FruitOf(g, r);
    SpotValid(g, b, tree, path, s, it, tok);
    var w := Continued(g, Sub(tree, path), it, r, u, ts);
    var tree' := Replaced(tree, path, w);
    ReplacedValid(g, tree, path, w);
    PathExtend(tree', path, it.dot);
    ReplacedTokens(g, b, tree, path, s, it, tok, u, ts, w);
    var left := LeftOf(tree', path + [it.dot]);
    assert left + u.children[..0] == left;
    assert (After(tree', path + [it.dot]) + [0])[0] == (Yields(ts) + [tok])[0] by {
      assert After(tree', path + [it.dot]) + [0] == Yields(ts) + (After(tree, path) + [0]);
    }
    ReplacedIsParse(g, tree, path, w);
    assert Spot(g, b, tree', path + [it.dot], s, Item(r, 0), (Yields(ts) + [tok])[0]);
  }

  lemma SpotValid(g: Grammar, b: Automaton, tree: Tree, path: seq<nat>, s: nat, it: Item, tok: nat)
    requires Spot(g, b, tree, path, s, it, tok)
    ensures ValidTree(g, tree) && ValidTree(g, Sub(tree, path)) && ValidForest(g, LeftOf(tree, path))
  {
    SubValid(g, tree, path);
  }

  lemma ReplacedIsParse(g: Grammar, tree: Tree, path: seq<nat>, w: Tree)
    requires IsParse(g, tree, Yield(tree)) && PathOk(tree, path) && w.Branch?
    requires ValidTree(g, Replaced(tree, path, w)) && Root(g, Replaced(tree, path, w)) == Root(g, tree)
    ensures IsParse(g, Replaced(tree, path, w), Yield(Replaced(tree, path, w)))
  {
    hide ValidTree, Yield;
  }

  lemma ReplacedTokens(g: Grammar, b: Automaton, tree: Tree, path: seq<nat>, s: nat, it: Item, tok: nat, u: Tree,
                       ts: seq<Tree>, w: Tree)
    requires Spot(g, b, tree, path, s, it, tok) && TokensOnly(g, Yield(u)) && Continues(g, it, ts)
    requires w.Branch? && it.dot < |w.children| && w.children[..it.dot] == Sub(tree, path).children[..it.dot]
    requires w.children[it.dot] == u && w.children[it.dot + 1..] == ts
    requires PathOk(Replaced(tree, path, w), path) && Sub(Replaced(tree, path, w), path) == w
    requires LeftOf(Replaced(tree, path, w), path) == LeftOf(tree, path)
    requires After(Replaced(tree, path, w), path) == After(tree, path)
    ensures TokensOnly(g, Yield(Replaced(tree, path, w)))
  {
    hide ValidTree, Yield, Yields, Walk, PathOk, Sub, LeftOf, After, Replaced;
    var v, d := Sub(tree, path), it.dot;
    SubYield(tree, path);
    SubYield(Replaced(tree, path, w), path);
    NodeYield(w, d);
    CutYield(v, d);
    ForestTokens(g, ts);
    var left, front, back, after := Yields(LeftOf(tree, path)), Yields(v.children[..d]), Yields(v.children[d..]),
      After(tree, path);
    TokensParts(g, left, front, back, after, Yield(tree));
    TokensJoin(g, left, front, Yield(u), Yields(ts), after);
  }

  lemma NodeYield(w: Tree, d: nat)
    requires w.Branch? && d < |w.children|
    ensures Yield(w) == Yields(w.children[..d]) + Yield(w.children[d]) + Yields(w.children[d + 1..])
  {
    hide Yields;
    SplitChildren(w.children, d);
  }

  lemma CutYield(v: Tree, d: nat)
    requires v.Branch? && d <= |v.children|
    ensures Yield(v) == Yields(v.children[..d]) + Yields(v.children[d..])
  {
    hide Yields;
    assert v.children == v.children[..d] + v.children[d..];
    YieldsAppend(v.children[..d], v.children[d..]);
  }

  lemma ForestTokens(g: Grammar, ts: seq<Tree>)
    requires ValidForest(g, ts) && InputOk(g, Yields(ts))
    ensures TokensOnly(g, Yields(ts))
  {
    hide ValidTree, Yields;
    forall i | 0 <= i < |Yields(ts)| ensures 0 < Yields(ts)[i] < g.nterminal {
      LeavesOfForest(g, ts, i);
    }
  }

  lemma TokensParts(g: Grammar, left: seq<nat>, front: seq<nat>, back: seq<nat>, after: seq<nat>, all: seq<nat>)
    requires TokensOnly(g, all) && all == left + (front + back) + after
    ensures TokensOnly(g, left + front) && TokensOnly(g, after)
  {
    forall i | 0 <= i < |left + front| ensures 0 < (left + front)[i] < g.nterminal {
      assert (left + front)[i] == all[i];
    }
    forall i | 0 <= i < |after| ensures 0 < after[i] < g.nterminal {
      assert after[i] == all[|left + (front + back)| + i];
    }
  }

  lemma TokensJoin(g: Grammar, left: seq<nat>, front: seq<nat>, y: seq<nat>, z: seq<nat>, after: seq<nat>)
    requires TokensOnly(g, left + front) && TokensOnly(g, y) && TokensOnly(g, z) && TokensOnly(g, after)
    ensures TokensOnly(g, left + (front + y + z) + after)
  {
    assert left + (front + y + z) + after == (left + front) + y + z + after;
  }

  /** So they are lookahead sets that a parser without gaps can work with. */
  lemma OccursClosed(g: Grammar, b: Automaton)
    requires g.WellFormed() && IsAutomaton(g, b)
    ensures RealClosed(g, b, OccLook(g, b))
  {
    hide Occurs, OccLook, LookAt, Yields, ValidTree, Fruitful;
    var m := OccLook(g, b);
    forall it | it in StartItems(g) && Fruitful(g, it.rule) ensures 0 in LookAt(m, 0, it) {
      StartOccurs(g, b, it);
      OccAt(g, b, 0, it, 0);
      assert StateOk(g, b, 0);
    }
    forall s, it, r, ts | 0 <= s < |b| && it in b[s].items && Calls(g, it, r) && Fruitful(g, r) && Continues(g, it, ts)
      ensures RealLocal(m, s, it, r, ts)
    {
      assert StateOk(g, b, s);
      CallClosed(g, b, s, it, r, ts);
    }
    forall s, it | 0 <= s < |b| && it in b[s].items && CanShift(g, it) && Next(g, it) in b[s].trans
      ensures LookAt(m, s, it) <= LookAt(m, b[s].trans[Next(g, it)], Advance(it))
    {
      var k := b[s].trans[Next(g, it)];
      assert StateOk(g, b, s) && k < |b| && StateOk(g, b, k);
      forall tok | tok in LookAt(m, s, it) ensures tok in LookAt(m, k, Advance(it)) {
        OccAt(g, b, s, it, tok);
        ShiftOccurs(g, b, s, it, tok);
        OccAt(g, b, k, Advance(it), tok);
      }
    }
  }

  lemma CallClosed(g: Grammar, b: Automaton, s: nat, it: Item, r: nat, ts: seq<Tree>)
    requires g.WellFormed() && s < |b| && it in b[s].items && Calls(g, it, r) && Fruitful(g, r) && Continues(g, it, ts)
    requires Item(r, 0) in b[s].items
    ensures RealLocal(OccLook(g, b), s, it, r, ts)
  {
    hide Occurs, OccLook, LookAt, Yields, ValidTree, Fruitful;
    var m := OccLook(g, b);
    forall tok | tok in LookAt(m, s, it) ensures (Yields(ts) + [tok])[0] in LookAt(m, s, Item(r, 0)) {
      var x := (Yields(ts) + [tok])[0];
      OccAt(g, b, s, it, tok);
      CallOccurs(g, b, s, it, tok, r, ts);
      assert x < g.nterminal;
      OccAt(g, b, s, Item(r, 0), x);
    }
    if Yields(ts) != [] && LookAt(m, s, it) != {} {
      var tok :| tok in LookAt(m, s, it);
      assert (Yields(ts) + [tok])[0] == Yields(ts)[0];
    }
    if Yields(ts) == [] {
      forall tok | tok in LookAt(m, s, it) ensures tok in LookAt(m, s, Item(r, 0)) {
        assert (Yields(ts) + [tok])[0] == tok;
      }
    }
  }

  /** Reducing where a rule ends in a sentence makes an exact parser. */
  lemma ReducesExact(g: Grammar, b: Automaton, l: Lookaheads, t: Tables)
    requires Generated(g, b, l, t) && TablesComplete(g, b, l, t) && ReducesThere(g, b, t)
    ensures ExactParser(g, t) && UnambiguousGrammar(g)
  {
    hide Occurs, OccLook, LookAt, ExactParser, UnambiguousGrammar, TablesFor, IsAutomaton, FindShiftAction,
         RealClosed, Frame, GotosOk;
    var m := OccLook(g, b);
    OccursClosed(g, b);
    GeneratedFrame(g, b, l, t);
    forall s: nat, it, tok: nat | Reduces(g, b, m, s, it, tok) && tok < g.nterminal
      ensures FindShiftAction(t, s, tok) == Some(t.nstate + it.rule)
    {
      OccAt(g, b, s, it, tok);
    }
    assert TablesComplete(g, b, m, t);
    GeneratedExact(g, b, l, m, t);
  }

  // ---------------------------------------------------------------------------
  // The tokens that follow are the lookahead sets with the right lambda flags

  /** The same roots with a yield of tokens, if the first symbol is one. */
  lemma RipeForest(g: Grammar, ts: seq<Tree>) returns (us: seq<Tree>)
    requires g.WellFormed() && Productive(g) && ValidForest(g, ts) && |Yields(ts)| > 0 && Yields(ts)[0] < g.nterminal
    ensures ValidForest(g, us) && Roots(g, us) == Roots(g, ts) && TokensOnly(g, Yields(us))
    ensures |Yields(us)| > 0 && Yields(us)[0] == Yields(ts)[0]
  {
    hide ValidTree, Productive, Yield, Yields, Roots;
    NoYields();
    var u, rest := ts[0], ts[1..];
    assert [u] + rest == ts;
    ConsForest(g, u, rest);
    if Yield(u) == [] {
      var vs := RipeForest(g, rest);
      ConsForest(g, u, vs);
      us := [u] + vs;
    } else {
      var v := Ripen(g, u, 1);
      assert Yield(v)[0] == Yield(v)[..1][0] == Yield(u)[..1][0];
      RootsAreSymbols(g, rest);
      var vs := SomeForest(g, Roots(g, rest));
      ConsForest(g, v, vs);
      us := [v] + vs;
      LeavesOfForest(g, ts, 0);
      HeadAndTail(g, Yield(v), Yields(vs));
    }
  }

  lemma ConsForest(g: Grammar, u: Tree, us: seq<Tree>)
    ensures Roots(g, [u] + us) == [Root(g, u)] + Roots(g, us) && Yields([u] + us) == Yield(u) + Yields(us)
    ensures |Roots(g, us)| == |us|
  {
    assert ([u] + us)[1..] == us;
  }

  lemma HeadAndTail(g: Grammar, y: seq<nat>, z: seq<nat>)
    requires y != [] && 0 < y[0] < g.nterminal && TokensOnly(g, y[1..]) && TokensOnly(g, z)
    ensures TokensOnly(g, y + z)
  {
    assert y == [y[0]] + y[1..];
  }

  lemma RootsAreSymbols(g: Grammar, ts: seq<Tree>)
    requires g.WellFormed() && ValidForest(g, ts)
    ensures forall i :: 0 <= i < |ts| ==> 0 < Roots(g, ts)[i] < g.NSymbol()
  {
    forall i | 0 <= i < |ts| ensures 0 < Roots(g, ts)[i] < g.NSymbol() {
      assert ValidTree(g, ts[i]);
      if ts[i].Branch? { assert g.RuleOk(g.rules[ts[i].rule]); }
    }
  }

  /** The item is met in some sentence. */
  ghost predicate Met(g: Grammar, b: Automaton, s: nat, it: Item) { exists tok :: Occurs(g, b, s, it, tok) }

  lemma RestSymbols(g: Grammar, it: Item)
    requires g.WellFormed() && CanShift(g, it)
    ensures forall i :: 0 <= i < |Rest(g, it)| ==> 0 < Rest(g, it)[i] < g.NSymbol()
  {
    assert g.RuleOk(g.rules[it.rule]);
  }

  lemma TokensAreInput(g: Grammar, w: seq<nat>)
    requires TokensOnly(g, w)
    ensures InputOk(g, w)
  {
  }

  lemma CallMet(g: Grammar, b: Automaton, s: nat, it: Item, r: nat)
    requires g.WellFormed() && Productive(g) && Met(g, b, s, it) && Calls(g, it, r)
    ensures Met(g, b, s, Item(r, 0))
  {
    hide ValidTree, Yield, Yields, Productive, Occurs;
    var tok :| Occurs(g, b, s, it, tok);
    RestSymbols(g, it);
    var ts := SomeForest(g, Rest(g, it));
    TokensAreInput(g, Yields(ts));
    AllFruitful(g, r);
    CallOccurs(g, b, s, it, tok, r, ts);
  }

  /** If the basis of a state is met, so are all its items. */
  lemma ClosureMet(g: Grammar, b: Automaton, s: nat)
    requires g.WellFormed() && Productive(g) && s < |b| && StateOk(g, b, s)
    requires forall it :: it in b[s].basis ==> Met(g, b, s, it)
    ensures forall it :: it in b[s].items ==> Met(g, b, s, it)
  {
    hide Productive, Met, TransOk;
    var met := set it | it in b[s].items && Met(g, b, s, it);
    forall it, r | it in met && Calls(g, it, r) ensures Item(r, 0) in met {
      CallMet(g, b, s, it, r);
    }
    assert ItemsClosed(g, met);
  }

  lemma {:induction false} WalkMet(g: Grammar, b: Automaton, xs: seq<nat>)
    requires g.WellFormed() && Productive(g) && IsAutomaton(g, b) && Walk(b, 0, xs) < |b|
    ensures forall it :: it in b[Walk(b, 0, xs)].items ==> Met(g, b, Walk(b, 0, xs), it)
    decreases |xs|
  {
    hide Productive, Walk, Occurs, IsClosure;
    var s := Walk(b, 0, xs);
    assert StateOk(g, b, s);
    forall it | it in b[s].basis ensures Met(g, b, s, it) {
      if xs == [] {
        EmptyWalk(b);
        AllFruitful(g, it.rule);
        StartOccurs(g, b, it);
      } else {
        var n := |xs| - 1;
        var k := Walk(b, 0, xs[..n]);
        WalkLast(b, xs);
        WalkMet(g, b, xs[..n]);
        assert StateOk(g, b, k);
        var j :| j in b[k].items && ShiftsOn(g, j, xs[n]) && Advance(j) == it;
        var tok :| Occurs(g, b, k, j, tok);
        ShiftOccurs(g, b, k, j, tok);
      }
    }
    ClosureMet(g, b, s);
  }

  lemma EmptyWalk(b: Automaton)
    ensures Walk(b, 0, []) == 0
  {
  }

  lemma WalkLast(b: Automaton, xs: seq<nat>)
    requires xs != [] && Walk(b, 0, xs) < |b|
    ensures var n := |xs| - 1; var k := Walk(b, 0, xs[..n]);
            k < |b| && xs[n] in b[k].trans && Walk(b, 0, xs) == b[k].trans[xs[n]]
  {
    var n := |xs| - 1;
    assert xs == xs[..n] + [xs[n]];
    WalkAppend(b, 0, xs[..n], xs[n]);
  }

  /** What can follow an item's next symbol follows its rules. */
  lemma FirstOccurs(g: Grammar, b: Automaton, s: nat, it: Item, r: nat, tok: nat)
    requires g.WellFormed() && Productive(g) && Met(g, b, s, it) && Calls(g, it, r)
    requires tok in FirstOfSeq(g, Nulls(g), TrueFirst(g), Rest(g, it))
    ensures tok < g.nterminal && Occurs(g, b, s, Item(r, 0), tok)
  {
    hide ValidTree, Yield, Yields, Productive, Occurs, Nullable, BeginsWith;
    RestSymbols(g, it);
    NullsLeast(g);
    TrueFirstClosed(g, Nulls(g));
    ScanWithin(g, Nulls(g), TrueFirst(g), Rest(g, it), tok);
    var us := ScanBegins(g, Nulls(g), TrueFirst(g), Rest(g, it), tok);
    var ts := RipeForest(g, us);
    TokensAreInput(g, Yields(ts));
    var k :| Occurs(g, b, s, it, k);
    AllFruitful(g, r);
    CallOccurs(g, b, s, it, k, r, ts);
  }

  lemma EmptyOccurs(g: Grammar, b: Automaton, s: nat, it: Item, r: nat, tok: nat)
    requires g.WellFormed() && Productive(g) && Occurs(g, b, s, it, tok) && Calls(g, it, r)
    requires Transparent(g, Nulls(g), Rest(g, it))
    ensures Occurs(g, b, s, Item(r, 0), tok)
  {
    hide ValidTree, Yield, Yields, Productive, Occurs, Nullable;
    NullsLeast(g);
    var ts := EmptyForest(g, Rest(g, it));
    AllFruitful(g, r);
    CallOccurs(g, b, s, it, tok, r, ts);
  }

  lemma OccursLocal(g: Grammar, b: Automaton, s: nat, it: Item, r: nat)
    requires g.WellFormed() && Productive(g) && s < |b| && StateOk(g, b, s) && it in b[s].items && Calls(g, it, r)
    requires Met(g, b, s, it)
    ensures LookLocal(g, Nulls(g), TrueFirst(g), OccLook(g, b), s, it, r)
  {
    hide Productive, Occurs, OccLook, LookAt, FirstOfSeq, Transparent, Nulls, TrueFirst, TransOk;
    var m := OccLook(g, b);
    forall tok | tok in FirstOfSeq(g, Nulls(g), TrueFirst(g), Rest(g, it)) ensures tok in LookAt(m, s, Item(r, 0)) {
      FirstOccurs(g, b, s, it, r, tok);
      OccAt(g, b, s, Item(r, 0), tok);
    }
    if Transparent(g, Nulls(g), Rest(g, it)) {
      forall tok | tok in LookAt(m, s, it) ensures tok in LookAt(m, s, Item(r, 0)) {
        OccAt(g, b, s, it, tok);
        EmptyOccurs(g, b, s, it, r, tok);
        OccAt(g, b, s, Item(r, 0), tok);
      }
    }
  }

  lemma OccursLookClosed(g: Grammar, b: Automaton)
    requires g.WellFormed() && Productive(g) && IsAutomaton(g, b) && AllReached(b)
    ensures LookClosed(g, Nulls(g), TrueFirst(g), b, OccLook(g, b))
  {
    hide Occurs, OccLook, LookAt, Productive, LookLocal, Nulls, TrueFirst, Met, IsClosure, Walk;
    OccursClosed(g, b);
    forall it | it in StartItems(g) ensures 0 in LookAt(OccLook(g, b), 0, it) {
      AllFruitful(g, it.rule);
    }
    forall s, it, r | 0 <= s < |b| && it in b[s].items && Calls(g, it, r)
      ensures LookLocal(g, Nulls(g), TrueFirst(g), OccLook(g, b), s, it, r)
    {
      assert Reached(b, s);
      var xs :| Walk(b, 0, xs) == s;
      WalkMet(g, b, xs);
      OccursLocal(g, b, s, it, r);
    }
  }

  // Conversely, along the path to a spot the token stays in any such sets

  /** Moving the dot over the first `d` children. */
  lemma {:induction false} DotMoves(g: Grammar, b: Automaton, m: Lookaheads, lambda: set<nat>, first: seq<set<nat>>,
                                    left: seq<nat>, v: Tree, d: nat, tok: nat)
    requires IsAutomaton(g, b) && LookClosed(g, lambda, first, b, m) && v.Branch? && ValidTree(g, v)
    requires d <= |v.children|
    requires Walk(b, 0, left) < |b| && Item(v.rule, 0) in b[Walk(b, 0, left)].items
    requires tok in LookAt(m, Walk(b, 0, left), Item(v.rule, 0))
    ensures var s := Walk(b, 0, left + Roots(g, v.children[..d]));
            s < |b| && Item(v.rule, d) in b[s].items && tok in LookAt(m, s, Item(v.rule, d))
    decreases d
  {
    hide Walk, LookLocal, LookAt, LookClosed, IsAutomaton, ValidTree;
    NodeChildren(g, v);
    if d == 0 {
      assert left + Roots(g, v.children[..0]) == left;
    } else {
      var xs, it := left + Roots(g, v.children[..d - 1]), Item(v.rule, d - 1);
      DotMoves(g, b, m, lambda, first, left, v, d - 1, tok);
      assert Roots(g, v.children)[d - 1] == Root(g, v.children[d - 1]) == Next(g, it);
      assert left + Roots(g, v.children[..d]) == xs + [Next(g, it)];
      WalkAppend(b, 0, xs, Next(g, it));
      DotMove(g, b, m, lambda, first, Walk(b, 0, xs), it, tok);
    }
  }

  lemma DotMove(g: Grammar, b: Automaton, m: Lookaheads, lambda: set<nat>, first: seq<set<nat>>, k: nat, it: Item,
                tok: nat)
    requires IsAutomaton(g, b) && LookClosed(g, lambda, first, b, m) && k < |b| && it in b[k].items && CanShift(g, it)
    requires tok in LookAt(m, k, it)
    ensures Next(g, it) in b[k].trans
    ensures var s := b[k].trans[Next(g, it)]; s < |b| && Advance(it) in b[s].items && tok in LookAt(m, s, Advance(it))
  {
    assert StateOk(g, b, k);
    var s := b[k].trans[Next(g, it)];
    assert Advance(it) in b[s].basis && StateOk(g, b, s);
    hide LookLocal, IsAutomaton;
    assert LookAt(m, k, it) <= LookAt(m, s, Advance(it));
  }

  /** From a node to one of its children. */
  lemma ChildKnown(g: Grammar, b: Automaton, m: Lookaheads, s: nat, v: Tree, d: nat, after: seq<nat>)
    requires g.WellFormed() && IsAutomaton(g, b) && LookClosed(g, Nulls(g), TrueFirst(g), b, m)
    requires v.Branch? && ValidTree(g, v) && d < |v.children| && v.children[d].Branch?
    requires s < |b| && Item(v.rule, d) in b[s].items && InputOk(g, Yields(v.children[d + 1..]))
    requires (after + [0])[0] in LookAt(m, s, Item(v.rule, d))
    ensures var r := v.children[d].rule;
            Item(r, 0) in b[s].items && (Yields(v.children[d + 1..]) + after + [0])[0] in LookAt(m, s, Item(r, 0))
  {
    hide LookClosed, IsAutomaton, ValidTree, Nullable, Nulls, TrueFirst, FirstOfSeq, BeginsWith, Yields;
    var it, c, rest := Item(v.rule, d), v.children[d], v.children[d + 1..];
    NodeChildren(g, v);
    CalledChild(g, b, s, v.rule, d, v.children);
    LocalHolds(g, b, m, s, it, c.rule);
    ScannedFirst(g, rest);
    if Yields(rest) == [] {
      assert Yields(rest) + after + [0] == after + [0];
    }
  }

  lemma ScannedFirst(g: Grammar, ts: seq<Tree>)
    requires g.WellFormed() && ValidForest(g, ts) && InputOk(g, Yields(ts))
    ensures Yields(ts) == [] ==> Transparent(g, Nulls(g), Roots(g, ts))
    ensures Yields(ts) != [] ==> Yields(ts)[0] in FirstOfSeq(g, Nulls(g), TrueFirst(g), Roots(g, ts))
  {
    TrueFirstIsFirst(g);
    NullsLeast(g);
    hide ValidTree, Nullable, Nulls, TrueFirst;
    ScanFindsFirst(g, Nulls(g), TrueFirst(g), ts);
  }

  lemma LocalHolds(g: Grammar, b: Automaton, m: Lookaheads, s: nat, it: Item, r: nat)
    requires LookClosed(g, Nulls(g), TrueFirst(g), b, m) && s < |b| && it in b[s].items && Calls(g, it, r)
    ensures LookLocal(g, Nulls(g), TrueFirst(g), m, s, it, r)
  {
  }

  /** From a node down the path. */
  lemma {:induction false} SpotKnown(g: Grammar, b: Automaton, m: Lookaheads, left: seq<nat>, v: Tree, path: seq<nat>,
                                     after: seq<nat>, d: nat)
    requires g.WellFormed() && IsAutomaton(g, b) && LookClosed(g, Nulls(g), TrueFirst(g), b, m)
    requires v.Branch? && ValidTree(g, v) && PathOk(v, path) && Sub(v, path).Branch? && d <= |Sub(v, path).children|
    requires InputOk(g, Yield(v))
    requires Walk(b, 0, left) < |b| && Item(v.rule, 0) in b[Walk(b, 0, left)].items
    requires (after + [0])[0] in LookAt(m, Walk(b, 0, left), Item(v.rule, 0))
    ensures var s := Walk(b, 0, left + Roots(g, LeftOf(v, path) + Sub(v, path).children[..d]));
            s < |b| && Item(Sub(v, path).rule, d) in b[s].items
            && (After(v, path) + after + [0])[0] in LookAt(m, s, Item(Sub(v, path).rule, d))
    decreases |path|
  {
    hide Walk, LookClosed, IsAutomaton, Yields;
    if path == [] {
      assert LeftOf(v, path) + v.children[..d] == v.children[..d] && After(v, path) + after + [0] == after + [0];
      DotMoves(g, b, m, Nulls(g), TrueFirst(g), left, v, d, (after + [0])[0]);
    } else {
      var i, q := path[0], path[1..];
      var c := v.children[i];
      var left', after' := left + Roots(g, v.children[..i]), Yields(v.children[i + 1..]) + after;
      DotMoves(g, b, m, Nulls(g), TrueFirst(g), left, v, i, (after + [0])[0]);
      NodeYield(v, i);
      InputParts(g, Yields(v.children[..i]), Yield(c), Yields(v.children[i + 1..]));
      ChildKnown(g, b, m, Walk(b, 0, left'), v, i, after);
      SpotKnown(g, b, m, left', c, q, after', d);
      var u := Sub(c, q).children[..d];
      assert left' + Roots(g, LeftOf(c, q) + u) == left + Roots(g, LeftOf(v, path) + u);
      assert After(c, q) + after' + [0] == After(v, path) + after + [0];
    }
  }

  lemma InputParts(g: Grammar, a: seq<nat>, b: seq<nat>, c: seq<nat>)
    requires InputOk(g, a + b + c)
    ensures InputOk(g, b) && InputOk(g, c)
  {
    forall i | 0 <= i < |b| ensures b[i] < g.nterminal {
      assert b[i] == (a + b + c)[|a| + i];
    }
    forall i | 0 <= i < |c| ensures c[i] < g.nterminal {
      assert c[i] == (a + b + c)[|a| + |b| + i];
    }
  }

  lemma OccursKnown(g: Grammar, b: Automaton, m: Lookaheads, s: nat, it: Item, tok: nat)
    requires g.WellFormed() && IsAutomaton(g, b) && LookClosed(g, Nulls(g), TrueFirst(g), b, m)
    requires Occurs(g, b, s, it, tok)
    ensures s < |b| && it in b[s].items && tok in LookAt(m, s, it)
  {
    hide Yield, Yields;
    var tree, path :| Spot(g, b, tree, path, s, it, tok);
    assert Item(tree.rule, 0) in StartItems(g) && StateOk(g, b, 0);
    EmptyWalk(b);
    TokensAreInput(g, Yield(tree));
    hide Walk, LookClosed, IsAutomaton, StateOk;
    assert 0 in LookAt(m, 0, Item(tree.rule, 0)) by { StartKnown(g, b, m, Item(tree.rule, 0)); }
    SpotKnown(g, b, m, [], tree, path, [], it.dot);
    var u := LeftOf(tree, path) + Sub(tree, path).children[..it.dot];
    assert [] + Roots(g, u) == Roots(g, u);
    assert After(tree, path) + [] + [0] == After(tree, path) + [0];
  }

  lemma StartKnown(g: Grammar, b: Automaton, m: Lookaheads, it: Item)
    requires LookClosed(g, Nulls(g), TrueFirst(g), b, m) && it in StartItems(g)
    ensures 0 in LookAt(m, 0, it)
  {
  }

  /** So the tokens that follow in sentences are the lookahead sets LEMON would compute
      with the right lambda flags. */
  lemma OccursIsLook(g: Grammar, b: Automaton)
    requires g.WellFormed() && Productive(g) && IsAutomaton(g, b) && AllReached(b)
    ensures IsLook(g, Nulls(g), TrueFirst(g), b, OccLook(g, b))
  {
    hide Occurs, OccLook, LookAt, Productive, LookClosed, Nulls, TrueFirst, IsAutomaton, AllReached;
    OccursLookClosed(g, b);
    forall m | LookClosed(g, Nulls(g), TrueFirst(g), b, m) ensures LookBelow(b, OccLook(g, b), m) {
      forall s, it, tok | 0 <= s < |b| && it in b[s].items && tok in LookAt(OccLook(g, b), s, it)
        ensures tok in LookAt(m, s, it)
      {
        OccAt(g, b, s, it, tok);
        OccursKnown(g, b, m, s, it, tok);
      }
    }
  }

  /** A token is in them exactly if it follows the item in some parse of a sentence. */
  lemma LookIsOccurs(g: Grammar, b: Automaton, m: Lookaheads, s: nat, it: Item, tok: nat)
    requires g.WellFormed() && Productive(g) && IsAutomaton(g, b) && AllReached(b)
    requires IsLook(g, Nulls(g), TrueFirst(g), b, m) && s < |b| && it in b[s].items
    ensures tok in LookAt(m, s, it) <==> Occurs(g, b, s, it, tok)
  {
    hide Occurs, OccLook, LookAt, Productive, LookClosed, Nulls, TrueFirst, IsAutomaton, AllReached;
    if tok in LookAt(m, s, it) {
      OccursLookClosed(g, b);
      assert LookBelow(b, m, OccLook(g, b));
      OccAt(g, b, s, it, tok);
    }
    if Occurs(g, b, s, it, tok) {
      OccursKnown(g, b, m, s, it, tok);
    }
  }

  // ---------------------------------------------------------------------------
  // Exactly when the parser is exact

  /** The tables reduce the completed `it` before `tok`: by its lookahead set, or because
      nothing is known about the token there and the rule is the default. */
  ghost predicate CoveredAt(g: Grammar, b: Automaton, l: Lookaheads, t: Tables, s: nat, it: Item, tok: nat)
    requires g.WellFormed() && s < |b|
  {
    || tok in LookAt(l, s, it)
    || (tok < g.nterminal && Champion(g, b, l, s, tok, |g.rules|).None? && s < |t.dflt| && t.dflt[s] == |b| + it.rule)
  }

  /** So they do for all tokens in the sets `m`. */
  ghost predicate Covers(g: Grammar, b: Automaton, l: Lookaheads, t: Tables, m: Lookaheads)
    requires g.WellFormed()
  {
    forall s, it, tok :: 0 <= s < |b| && it in b[s].items && IsComplete(g, it) && tok in LookAt(m, s, it) ==>
      CoveredAt(g, b, l, t, s, it, tok)
  }

  /** What the tables answer, in terms of lookahead sets and defaults. */
  lemma CoveredIff(g: Grammar, first: seq<set<nat>>, b: Automaton, l: Lookaheads, t: Tables, s: nat, it: Item, tok: nat)
    requires Delivered(g, first, b, l, t) && TablesComplete(g, b, l, t)
    requires s < |b| && it in b[s].items && IsComplete(g, it) && tok < g.nterminal
    ensures FindShiftAction(t, s, tok) == Some(t.nstate + it.rule) <==> CoveredAt(g, b, l, t, s, it, tok)
  {
    hide IsLook, GotosOnly, FindShiftAction, Generated, IsClosure, Reduces, Champion, GotosOk, TokenActionOk,
         AllReached;
    var c := Champion(g, b, l, s, tok, |g.rules|);
    assert it == CompleteItem(g, it.rule);
    assert tok in LookAt(l, s, it) <==> Reduces(g, b, l, s, it, tok) by { ReducesIff(g, b, l, s, it, tok); }
    if c.Some? {
      ChampionReduces(g, b, l, s, tok, |g.rules|);
      assert StateOk(g, b, s);
      ChampionShifts(g, b, l, s, tok, |g.rules|);
    }
  }

  lemma ReducesIff(g: Grammar, b: Automaton, l: Lookaheads, s: nat, it: Item, tok: nat)
    requires s < |b| && it in b[s].items && IsComplete(g, it)
    ensures tok in LookAt(l, s, it) <==> Reduces(g, b, l, s, it, tok)
  {
  }

  lemma DeliveredFacts(g: Grammar, first: seq<set<nat>>, b: Automaton, l: Lookaheads, t: Tables)
    requires Delivered(g, first, b, l, t)
    ensures g.WellFormed() && IsAutomaton(g, b) && AllReached(b)
  {
    hide IsLook, TablesFor, TablesChoose, DefaultsAnswer, GotosOnly, Generated, AllReached, IsAutomaton;
  }

  lemma SpotToken(g: Grammar, b: Automaton, tree: Tree, path: seq<nat>, s: nat, it: Item, tok: nat)
    requires g.WellFormed() && Spot(g, b, tree, path, s, it, tok)
    ensures tok < g.nterminal
  {
    hide ValidTree, Yields, Yield, Walk;
    SubYield(tree, path);
    var y := Yields(LeftOf(tree, path)) + Yield(Sub(tree, path));
    if After(tree, path) != [] {
      assert Yield(tree)[|y|] == After(tree, path)[0];
    }
  }

  /** Reducing where rules end in sentences is reducing before the true lookahead sets. */
  lemma CoversIff(g: Grammar, first: seq<set<nat>>, b: Automaton, l: Lookaheads, t: Tables, m: Lookaheads)
    requires Delivered(g, first, b, l, t) && TablesComplete(g, b, l, t) && Productive(g)
    requires IsLook(g, Nulls(g), TrueFirst(g), b, m)
    ensures g.WellFormed() && (ReducesThere(g, b, t) <==> Covers(g, b, l, t, m))
  {
    hide Delivered, TablesComplete, IsLook, FindShiftAction, CoveredAt, LookAt, Productive, Spot, AllReached,
         IsAutomaton, Nulls, TrueFirst;
    DeliveredFacts(g, first, b, l, t);
    forall s: nat, it: Item, tok: nat | s < |b| && it in b[s].items && IsComplete(g, it) && Occurs(g, b, s, it, tok)
      ensures FindShiftAction(t, s, tok) == Some(t.nstate + it.rule) <==> CoveredAt(g, b, l, t, s, it, tok)
    {
      var tree, path :| Spot(g, b, tree, path, s, it, tok);
      SpotToken(g, b, tree, path, s, it, tok);
      CoveredIff(g, first, b, l, t, s, it, tok);
    }
    forall s: nat, it: Item, tok: nat | s < |b| && it in b[s].items
      ensures tok in LookAt(m, s, it) <==> Occurs(g, b, s, it, tok)
    {
      LookIsOccurs(g, b, m, s, it, tok);
    }
  }

  /** Without default reductions, the sets themselves must hold everything. */
  ghost predicate WithinAtEnds(g: Grammar, b: Automaton, m: Lookaheads, l: Lookaheads) {
    forall s, it :: 0 <= s < |b| && it in b[s].items && IsComplete(g, it) ==> LookAt(m, s, it) <= LookAt(l, s, it)
  }

  lemma PlainCovers(g: Grammar, b: Automaton, l: Lookaheads, t: Tables, m: Lookaheads)
    requires g.WellFormed() && DefaultsOk(g, b, l, t, false)
    ensures Covers(g, b, l, t, m) <==> WithinAtEnds(g, b, m, l)
  {
    hide Champion, LookAt;
    forall s, it, tok | 0 <= s < |b| && it in b[s].items && IsComplete(g, it)
      ensures CoveredAt(g, b, l, t, s, it, tok) <==> tok in LookAt(l, s, it)
    {
      assert IsDefault(g, b, l, s, false, t.dflt[s]);
    }
  }

  lemma ExactIff(g: Grammar, b: Automaton, l: Lookaheads, t: Tables)
    requires Generated(g, b, l, t) && TablesComplete(g, b, l, t)
    ensures ExactParser(g, t) <==> ReducesThere(g, b, t)
    ensures ExactParser(g, t) ==> UnambiguousGrammar(g)
  {
    hide *;
    if ReducesThere(g, b, t) {
      ReducesExact(g, b, l, t);
    }
    if ExactParser(g, t) {
      ExactReduces(g, b, l, t);
    }
  }

  /** For a grammar without conflicts, with or without default reductions: the parser is
      exact if and only if it reduces wherever a rule ends in a parse of a sentence. If
      all nonterminals are productive, this can be read off the tables: let `m` be the
      lookahead sets of the same states with the lambda flags set for all symbols that
      can be empty. Then at the end of every rule, the tokens in `m` must be in the
      computed set, or have no action of their own and get the rule by default. */
  method GenerateExact(g: Grammar, compress: bool)
    returns (t: Tables, clean: bool, ghost first: seq<set<nat>>, ghost a: Automaton, ghost look: Lookaheads,
             ghost b: Automaton, ghost l: Lookaheads,
             ghost lambda: set<nat>, ghost trueFirst: seq<set<nat>>, ghost m: Lookaheads)
    requires g.WellFormed() && g.StartNotOnRhs() && g.RhsFits()
    ensures IsLalr(g, first, a, look) && (clean <==> ConflictFree(g, a, look))
    ensures Delivered(g, first, b, l, t) && SameUpToOrder(a, look, b, l) && DefaultsOk(g, b, l, t, compress)
    ensures clean ==> (ExactParser(g, t) <==> ReducesThere(g, b, t))
    ensures clean && ExactParser(g, t) ==> UnambiguousGrammar(g)
    ensures Productive(g) ==> IsEmpty(g, lambda) && IsFirst(g, lambda, trueFirst) && IsLook(g, lambda, trueFirst, b, m)
    ensures clean && Productive(g) ==> (ExactParser(g, t) <==> Covers(g, b, l, t, m))
    ensures clean && Productive(g) && !compress ==> (ExactParser(g, t) <==> WithinAtEnds(g, b, m, l))
  {
    hide *;
    var n;
    t, n, clean, first, a, look, b, l := Generate(g, compress);
    DeliveredFacts(g, first, b, l, t);
    DeliveredGenerated(g, first, b, l, t);
    lambda, trueFirst, m := Nulls(g), TrueFirst(g), OccLook(g, b);
    if clean {
      ExactIff(g, b, l, t);
    }
    if Productive(g) {
      NullsLeast(g);
      TrueFirstIsFirst(g);
      OccursIsLook(g, b);
      if clean {
        CoversIff(g, first, b, l, t, m);
        if !compress {
          PlainCovers(g, b, l, t, m);
        }
      }
    }
  }
}
