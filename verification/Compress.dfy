/** `CompressTables`: the most frequent reduce of a state becomes its default. */
module Compress {
  import opened Options
  import opened Grammars
  import opened Sorting
  import opened ActionLists
  import opened Actions

  predicate IsReduce(a: Action, r: nat) { a.typ == REDUCE && a.arg == r }

  /** How many actions of the list reduce rule `r`. */
  function Count(ap: seq<Action>, r: nat): nat {
    if ap == [] then 0 else (if IsReduce(ap[0], r) then 1 else 0) + Count(ap[1..], r)
  }

  lemma {:induction false} CountAppend(a: seq<Action>, b: seq<Action>, r: nat)
    ensures Count(a + b, r) == Count(a, r) + Count(b, r)
  {
    if a == [] {
      assert a + b == b;
    } else {
      assert (a + b)[1..] == a[1..] + b;
      CountAppend(a[1..], b, r);
    }
  }

  lemma {:induction false} CountPositive(ap: seq<Action>, r: nat)
    ensures Count(ap, r) > 0 <==> exists i :: 0 <= i < |ap| && IsReduce(ap[i], r)
  {
    if ap != [] {
      CountPositive(ap[1..], r);
      if i :| 0 <= i < |ap| && IsReduce(ap[i], r) {
        assert i > 0 ==> ap[i] == ap[1..][i - 1];
      }
      if i :| 0 <= i < |ap[1..]| && IsReduce(ap[1..][i], r) {
        assert ap[i + 1] == ap[1..][i];
      }
    }
  }

  /** The counting loop. */
  method CountFrom(ap: seq<Action>, i: nat, rp: nat, rbest: Option<nat>) returns (n: nat)
    requires i < |ap| && IsReduce(ap[i], rp) && rbest != Some(rp)
    ensures n == Count(ap[i..], rp)
  {
    n := 1;
    var j := i + 1;
    assert ap[i..][1..] == ap[i + 1..];
    while j < |ap|
      invariant i < j <= |ap|
      invariant n + Count(ap[j..], rp) == Count(ap[i..], rp)
    {
      assert ap[j..][1..] == ap[j + 1..];
      if ap[j].typ == REDUCE && rbest != Some(ap[j].arg) && ap[j].arg == rp {
        n := n + 1;
      }
      j := j + 1;
    }
  }

  /** `rbest` is a rule, not of the start symbol, that no other such rule is reduced
      more often than, and the first of those in the list. */
  ghost predicate IsBest(g: Grammar, ap: seq<Action>, rbest: Option<nat>) {
    match rbest
    case None => forall i :: 0 <= i < |ap| && ap[i].typ == REDUCE ==> g.IsStartRule(ap[i].arg)
    case Some(r) =>
      && !g.IsStartRule(r) && Count(ap, r) > 0 && (forall q :: !g.IsStartRule(q) ==> Count(ap, q) <= Count(ap, r))
      && exists f :: BestAt(g, ap, r, f)
  }

  /** Rule `r` is reduced at `f`, and every rule before that less often. */
  ghost predicate BestAt(g: Grammar, ap: seq<Action>, r: nat, f: int) {
    && 0 <= f < |ap| && IsReduce(ap[f], r)
    && forall k :: 0 <= k < f && ap[k].typ == REDUCE && !g.IsStartRule(ap[k].arg) ==>
      Count(ap, ap[k].arg) < Count(ap, r)
  }

  method FindBest(g: Grammar, ap: seq<Action>) returns (rbest: Option<nat>)
    ensures IsBest(g, ap, rbest)
  {
    rbest := None;
    var nbest := 0;
    ghost var f := 0;
    for i := 0 to |ap|
      invariant match rbest case None => nbest == 0 case Some(r) => !g.IsStartRule(r) && nbest == Count(ap, r) > 0
      invariant rbest.Some? ==> BestAt(g, ap, rbest.value, f)
      invariant forall k :: 0 <= k < i && ap[k].typ == REDUCE && !g.IsStartRule(ap[k].arg) ==>
                  Count(ap, ap[k].arg) <= nbest && nbest > 0
    {
      if ap[i].typ == REDUCE && !g.IsStartRule(ap[i].arg) && rbest != Some(ap[i].arg) {
        var rp := ap[i].arg;
        var n := CountFrom(ap, i, rp, rbest);
        assert ap == ap[..i] + ap[i..];
        CountAppend(ap[..i], ap[i..], rp);
        CountPositive(ap[..i], rp);
        CountPositive(ap[i..], rp);
        assert IsReduce(ap[i..][0], rp);
        if n > nbest {
          nbest := n;
          rbest := Some(rp);
          f := i;
        }
      }
    }
    forall q | !g.IsStartRule(q) ensures Count(ap, q) <= nbest {
      CountPositive(ap, q);
    }
  }

  // ---------------------------------------------------------------------------
  // Making it the default

  /** Position of the first reduce of `r`. */
  method FirstReduce(ap: seq<Action>, r: nat) returns (f: nat)
    requires Count(ap, r) > 0
    ensures f < |ap| && IsReduce(ap[f], r) && forall k :: 0 <= k < f ==> !IsReduce(ap[k], r)
  {
    CountPositive(ap, r);
    f := 0;
    while !IsReduce(ap[f], r)
      invariant f < |ap|
      invariant forall k :: 0 <= k < f ==> !IsReduce(ap[k], r)
      decreases |ap| - f
    {
      f := f + 1;
    }
  }

  /** The first of the default's reduces moves to `{default}`, the others go. */
  method Combine(ap: seq<Action>, r: nat, f: nat, dflt: nat) returns (ap': seq<Action>)
    requires f < |ap| && IsReduce(ap[f], r) && forall k :: 0 <= k < f ==> !IsReduce(ap[k], r)
    ensures |ap'| == |ap|
    ensures forall k :: 0 <= k < |ap| ==>
                          ap'[k] == if k == f then Action(dflt, REDUCE, r)
                                    else if IsReduce(ap[k], r) then ap[k].(typ := NOT_USED) else ap[k]
  {
    ap' := ap[f := ap[f].(sp := dflt)];
    for i := f + 1 to |ap|
      invariant |ap'| == |ap|
      invariant forall k :: 0 <= k < |ap| ==>
                              ap'[k] == if k == f then Action(dflt, REDUCE, r)
                                        else if k < i && IsReduce(ap[k], r) then ap[k].(typ := NOT_USED) else ap[k]
    {
      if IsReduce(ap'[i], r) {
        ap' := ap'[i := ap'[i].(typ := NOT_USED)];
      }
    }
  }

  ghost predicate SymbolsBelow(ap: seq<Action>, n: nat) {
    forall x :: x in ap ==> x.sp < n
  }

  /** What is alive after compression, given what was before. */
  ghost predicate Compressed(g: Grammar, ap: seq<Action>, ap': seq<Action>) {
    && LiveOnce(ap')
    && exists rbest :: IsBest(g, ap, rbest) && CompressedBy(g, ap, ap', rbest)
  }

  ghost predicate CompressedBy(g: Grammar, ap: seq<Action>, ap': seq<Action>, rbest: Option<nat>) {
    match rbest
    case None => ap' == ap
    case Some(r) =>
      forall x :: Live(x) ==> (x in ap' <==> (x in ap && !IsReduce(x, r)) || x == Action(g.NSymbol(), REDUCE, r))
  }

  lemma CombineLive(g: Grammar, ap: seq<Action>, ap': seq<Action>, r: nat, f: nat)
    requires f < |ap| == |ap'| && IsReduce(ap[f], r) && SymbolsBelow(ap, g.NSymbol()) && LiveOnce(ap)
    requires forall k :: 0 <= k < |ap| ==>
                           ap'[k] == if k == f then Action(g.NSymbol(), REDUCE, r)
                                     else if IsReduce(ap[k], r) then ap[k].(typ := NOT_USED) else ap[k]
    ensures LiveOnce(ap') && CompressedBy(g, ap, ap', Some(r))
  {
    forall x | Live(x) ensures x in ap' <==> (x in ap && !IsReduce(x, r)) || x == Action(g.NSymbol(), REDUCE, r) {
      if x in ap && !IsReduce(x, r) {
        var k :| 0 <= k < |ap| && ap[k] == x;
        assert ap'[k] == x;
      }
      assert ap'[f] == Action(g.NSymbol(), REDUCE, r);
    }
    forall i, j | 0 <= i < j < |ap'| && Live(ap'[i]) && Live(ap'[j]) ensures ap'[i].sp != ap'[j].sp {
      assert ap[i] in ap && ap[j] in ap;
    }
  }

  lemma {:induction false} TwiceIn(s: seq<Action>, x: Action)
    ensures multiset(s)[x] >= 2 <==> exists i, j :: 0 <= i < j < |s| && s[i] == x && s[j] == x
  {
    if s != [] {
      var tail := s[1..];
      TwiceIn(tail, x);
      assert s == [s[0]] + tail;
      assert multiset(s)[x] == multiset(tail)[x] + if s[0] == x then 1 else 0;
      if i, j :| 0 <= i < j < |s| && s[i] == x && s[j] == x {
        assert s[j] == tail[j - 1];
        if i > 0 { assert s[i] == tail[i - 1]; }
        else { assert tail[j - 1] in multiset(tail); }
      }
      if multiset(s)[x] >= 2 {
        if multiset(tail)[x] >= 2 {
          var i, j :| 0 <= i < j < |tail| && tail[i] == x && tail[j] == x;
          assert s[i + 1] == x && s[j + 1] == x;
        } else {
          assert x in multiset(tail);
          var j :| 0 <= j < |tail| && tail[j] == x;
          assert s[0] == x && s[j + 1] == x;
        }
      }
    }
  }

  lemma LiveOncePermuted(a: seq<Action>, b: seq<Action>)
    requires multiset(a) == multiset(b) && LiveOnce(a)
    ensures LiveOnce(b)
  {
    forall i, j | 0 <= i < j < |b| && Live(b[i]) && Live(b[j]) ensures b[i].sp != b[j].sp {
      if b[i] == b[j] {
        TwiceIn(b, b[i]);
        TwiceIn(a, b[i]);
      } else {
        assert b[i] in multiset(a) && b[j] in multiset(a);
        var p :| 0 <= p < |a| && a[p] == b[i];
        var q :| 0 <= q < |a| && a[q] == b[j];
        assert p < q || q < p;
      }
    }
  }

  method CompressState(g: Grammar, ap: seq<Action>) returns (ap': seq<Action>)
    requires SymbolsBelow(ap, g.NSymbol()) && LiveOnce(ap)
    ensures Compressed(g, ap, ap')
  {
    var rbest := FindBest(g, ap);
    if rbest.None? {
      ap' := ap;
      assert CompressedBy(g, ap, ap', rbest);
    } else {
      var f := FirstReduce(ap, rbest.value);
      var c := Combine(ap, rbest.value, f, g.NSymbol());
      CombineLive(g, ap, c, rbest.value, f);
      ap' := StableSort(ActionCmp, c);
      StableSortElements(ActionCmp, c);
      StableSortSame(ActionCmp, c);
      LiveOncePermuted(c, ap');
      assert CompressedBy(g, ap, ap', rbest);
    }
  }

  method CompressTables(g: Grammar, aps: seq<seq<Action>>) returns (aps': seq<seq<Action>>)
    requires forall s :: 0 <= s < |aps| ==> SymbolsBelow(aps[s], g.NSymbol()) && LiveOnce(aps[s])
    ensures |aps'| == |aps| && forall s :: 0 <= s < |aps| ==> Compressed(g, aps[s], aps'[s])
  {
    hide SymbolsBelow, LiveOnce, Compressed;
    aps' := [];
    for s := 0 to |aps|
      invariant |aps'| == s && forall k :: 0 <= k < s ==> Compressed(g, aps[k], aps'[k])
    {
      var ap := CompressState(g, aps[s]);
      aps' := aps' + [ap];
    }
  }
}
