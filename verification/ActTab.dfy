/** The `acttab` module: many sparse sets of actions packed into one table, each
    found again by its offset. */
module ActTab {
  import opened Options
  import opened Sorting

  /** A slot; a negative lookahead marks it unused. */
  datatype Slot = Slot(lookahead: int, action: int)

  const Empty := Slot(-1, -1)

  /** A transaction set: distinct nonnegative lookaheads. */
  predicate SetOk(es: seq<Slot>) {
    && (forall i :: 0 <= i < |es| ==> es[i].lookahead >= 0)
    && (forall i, j :: 0 <= i < j < |es| ==> es[i].lookahead != es[j].lookahead)
  }

  /** The action of `x` in a transaction set. */
  function ActionOf(es: seq<Slot>, x: int): Option<int> {
    if es == [] then None else if es[0].lookahead == x then Some(es[0].action) else ActionOf(es[1..], x)
  }

  /** What the generated parser finds for `x` at an offset, in a table of which the
      first `n` slots are emitted. */
  function Lookup(tab: seq<Slot>, n: nat, ofst: int, x: int): Option<int>
    requires n <= |tab|
  {
    var k := ofst + x;
    if 0 <= k < n && tab[k].lookahead == x then Some(tab[k].action) else None
  }

  ghost predicate Holds(tab: seq<Slot>, n: nat, ofst: int, es: seq<Slot>)
    requires n <= |tab|
  {
    forall x :: x >= 0 ==> Lookup(tab, n, ofst, x) == ActionOf(es, x)
  }

  lemma {:induction false} ActionOfExact(es: seq<Slot>, x: int)
    requires SetOk(es)
    ensures forall i :: 0 <= i < |es| && es[i].lookahead == x ==> ActionOf(es, x) == Some(es[i].action)
    ensures ActionOf(es, x).Some? ==> exists i :: 0 <= i < |es| && es[i].lookahead == x
  {
    if es != [] {
      ActionOfExact(es[1..], x);
      forall i | 0 <= i < |es| && es[i].lookahead == x ensures ActionOf(es, x) == Some(es[i].action) {
        if i > 0 { assert es[i] == es[1..][i - 1]; }
      }
      if es[0].lookahead != x && ActionOf(es[1..], x).Some? {
        var i :| 0 <= i < |es[1..]| && es[1..][i].lookahead == x;
        assert es[i + 1].lookahead == x;
      }
    }
  }

  // ---------------------------------------------------------------------------
  // Where a set may go

  /** Slot `k` is where the set, put at this offset, has a member. */
  predicate Wants(es: seq<Slot>, ofst: int, k: int) {
    k >= ofst && ActionOf(es, k - ofst).Some?
  }

  function Member(es: seq<Slot>, ofst: int, k: int): Slot
    requires Wants(es, ofst, k)
  {
    Slot(k - ofst, ActionOf(es, k - ofst).value)
  }

  /** Slots at or beyond the used part are unused. */
  ghost predicate TailEmpty(tab: seq<Slot>, n: nat) {
    n <= |tab| && forall k :: n <= k < |tab| ==> tab[k].lookahead < 0
  }

  /** Slot `j` would be taken for a member of a set at this offset. */
  predicate Hit(tab: seq<Slot>, ofst: int, j: int) {
    0 <= j < |tab| && tab[j].lookahead >= 0 && tab[j].lookahead == j - ofst
  }

  /** All slots wanted are free and no other slot would be mistaken for a member. */
  ghost predicate Fits(tab: seq<Slot>, n: nat, es: seq<Slot>, ofst: int) {
    && (forall k :: Wants(es, ofst, k) ==> 0 <= k < |tab| && tab[k].lookahead < 0)
    && (forall j :: 0 <= j < n ==> !Hit(tab, ofst, j))
  }

  /** The same, except that an unused slot is also taken for a member where its mark
      happens to be the distance from the offset: -1 in the slot before it. */
  ghost predicate FitsClear(tab: seq<Slot>, n: nat, es: seq<Slot>, ofst: int) {
    && (forall k :: Wants(es, ofst, k) ==> 0 <= k < |tab| && tab[k].lookahead < 0)
    && (forall j :: 0 <= j < n && j < |tab| ==> tab[j].lookahead != j - ofst)
  }

  lemma ClearIsFree(tab: seq<Slot>, n: nat, es: seq<Slot>, ofst: int)
    ensures FitsClear(tab, n, es, ofst) ==> Fits(tab, n, es, ofst)
    ensures Fits(tab, n, es, ofst) ==>
              (FitsClear(tab, n, es, ofst) <==> forall j :: 0 <= j < n && j < |tab| && j < ofst ==>
                tab[j].lookahead != j - ofst)
  {
    if Fits(tab, n, es, ofst) && forall j :: 0 <= j < n && j < |tab| && j < ofst ==> tab[j].lookahead != j - ofst {
      forall j | 0 <= j < n && j < |tab| ensures tab[j].lookahead != j - ofst {
        assert !Hit(tab, ofst, j);
      }
    }
  }

  /** The set is there already, and nothing else at that offset. */
  ghost predicate AlreadyThere(tab: seq<Slot>, n: nat, es: seq<Slot>, ofst: int) {
    && (forall k :: Wants(es, ofst, k) ==> 0 <= k < |tab| && k < n && tab[k] == Member(es, ofst, k))
    && (forall j :: 0 <= j < n && Hit(tab, ofst, j) ==> Wants(es, ofst, j))
  }

  /** `tab` after writing the set at the offset. */
  ghost predicate Written(tab: seq<Slot>, es: seq<Slot>, ofst: int, after: seq<Slot>) {
    && |after| == |tab|
    && (forall k :: 0 <= k < |tab| ==> after[k] == if Wants(es, ofst, k) then Member(es, ofst, k) else tab[k])
  }

  ghost predicate UsedAfter(n: nat, es: seq<Slot>, ofst: int, n': nat) {
    n <= n' && (forall k :: Wants(es, ofst, k) ==> k < n') && (n' == n || Wants(es, ofst, n' - 1))
  }

  /** The new set can be looked up. */
  lemma NewSetHolds(tab: seq<Slot>, n: nat, es: seq<Slot>, ofst: int, after: seq<Slot>, n': nat)
    requires TailEmpty(tab, n) && (Fits(tab, n, es, ofst) || AlreadyThere(tab, n, es, ofst))
    requires Written(tab, es, ofst, after) && UsedAfter(n, es, ofst, n') && n' <= |tab|
    ensures Holds(after, n', ofst, es)
  {
    forall x | x >= 0 ensures Lookup(after, n', ofst, x) == ActionOf(es, x) {
      var k := ofst + x;
      assert Wants(es, ofst, k) <==> ActionOf(es, x).Some?;
      assert 0 <= k < n && !Wants(es, ofst, k) ==> !Hit(tab, ofst, k);
    }
  }

  /** The sets already packed can still be looked up. */
  lemma OldSetHolds(tab: seq<Slot>, n: nat, es: seq<Slot>, ofst: int, after: seq<Slot>, n': nat, packed: seq<Slot>,
                    at: int)
    requires TailEmpty(tab, n) && (Fits(tab, n, es, ofst) || AlreadyThere(tab, n, es, ofst))
    requires Written(tab, es, ofst, after) && UsedAfter(n, es, ofst, n') && n' <= |tab|
    requires SetOk(packed) && packed != [] && Holds(tab, n, at, packed)
    ensures Holds(after, n', at, packed)
  {
    var y := packed[0].lookahead;
    assert Lookup(tab, n, at, y) == ActionOf(packed, y);
    assert Hit(tab, at, at + y);
    forall x | x >= 0 ensures Lookup(after, n', at, x) == ActionOf(packed, x) {
      var k := at + x;
      assert Lookup(tab, n, at, x) == ActionOf(packed, x);
      if 0 <= k < n' && Wants(es, ofst, k) && !AlreadyThere(tab, n, es, ofst) {
        assert tab[k].lookahead < 0 && at != ofst;
      }
    }
  }

  ghost predicate AllPacked(tab: seq<Slot>, n: nat, packed: seq<(int, seq<Slot>)>)
    requires n <= |tab|
  {
    forall q :: 0 <= q < |packed| ==> SetOk(packed[q].1) && packed[q].1 != [] && Holds(tab, n, packed[q].0, packed[q].1)
  }

  /** So all sets can be looked up after one more was written. */
  lemma PackOne(tab: seq<Slot>, n: nat, es: seq<Slot>, ofst: int, after: seq<Slot>, n': nat,
                packed: seq<(int, seq<Slot>)>)
    requires TailEmpty(tab, n) && (Fits(tab, n, es, ofst) || AlreadyThere(tab, n, es, ofst)) && SetOk(es) && es != []
    requires Written(tab, es, ofst, after) && UsedAfter(n, es, ofst, n') && n' <= |tab| && n <= |tab|
    requires AllPacked(tab, n, packed)
    ensures TailEmpty(after, n') && n' <= |after| && AllPacked(after, n', packed + [(ofst, es)])
  {
    TailStaysEmpty(tab, n, es, ofst, after, n');
    NewSetHolds(tab, n, es, ofst, after, n');
    hide TailEmpty, Fits, AlreadyThere, Written, UsedAfter, Holds, SetOk;
    assert n' <= |after| by { WrittenSize(tab, es, ofst, after); }
    forall q | 0 <= q < |packed| ensures Holds(after, n', packed[q].0, packed[q].1) {
      OldSetHolds(tab, n, es, ofst, after, n', packed[q].1, packed[q].0);
    }
  }

  lemma WrittenSize(tab: seq<Slot>, es: seq<Slot>, ofst: int, after: seq<Slot>)
    requires Written(tab, es, ofst, after)
    ensures |after| == |tab|
  {
  }

  /** Two sets share an offset only if they are the same set. */
  lemma SameOffsetSameSet(tab: seq<Slot>, n: nat, ofst: int, a: seq<Slot>, b: seq<Slot>)
    requires n <= |tab| && SetOk(a) && SetOk(b) && Holds(tab, n, ofst, a) && Holds(tab, n, ofst, b)
    ensures Elems(a) == Elems(b)
  {
    forall e ensures e in a <==> e in b {
      assert e.lookahead >= 0 ==>
        Lookup(tab, n, ofst, e.lookahead) == ActionOf(a, e.lookahead) == ActionOf(b, e.lookahead);
      ActionOfExact(a, e.lookahead);
      ActionOfExact(b, e.lookahead);
    }
  }

  lemma TailStaysEmpty(tab: seq<Slot>, n: nat, es: seq<Slot>, ofst: int, after: seq<Slot>, n': nat)
    requires TailEmpty(tab, n) && Written(tab, es, ofst, after) && UsedAfter(n, es, ofst, n') && n' <= |tab|
    ensures TailEmpty(after, n')
  {
  }

  /** Appending behind the used part always fits. */
  lemma AppendFits(tab: seq<Slot>, n: nat, es: seq<Slot>, mx: int)
    requires TailEmpty(tab, n) && SetOk(es) && (forall i :: 0 <= i < |es| ==> es[i].lookahead <= mx) && n + mx < |tab|
    ensures Fits(tab, n, es, n)
  {
    forall k | Wants(es, n, k) ensures 0 <= k < |tab| && tab[k].lookahead < 0 {
      ActionOfExact(es, k - n);
    }
  }

  ghost function Places(es: seq<Slot>, ofst: int): set<int> {
    if es == [] then {} else Places(es[1..], ofst) + {ofst + es[0].lookahead}
  }

  lemma {:induction false} PlacesExact(es: seq<Slot>, ofst: int)
    requires SetOk(es)
    ensures |Places(es, ofst)| == |es|
    ensures forall k :: k in Places(es, ofst) <==> Wants(es, ofst, k)
  {
    if es != [] {
      PlacesExact(es[1..], ofst);
      if Wants(es[1..], ofst, ofst + es[0].lookahead) {
        ActionOfExact(es[1..], es[0].lookahead);
      }
    }
  }

  /** The used slots that would be taken for members of a set at this offset. */
  ghost function Hits(tab: seq<Slot>, n: nat, ofst: int): set<int> {
    set j | 0 <= j < n && Hit(tab, ofst, j)
  }

  lemma HitsNext(tab: seq<Slot>, n: nat, ofst: int)
    ensures Hits(tab, n + 1, ofst) == Hits(tab, n, ofst) + if Hit(tab, ofst, n) then {n} else {}
    ensures |Hits(tab, n + 1, ofst)| == |Hits(tab, n, ofst)| + if Hit(tab, ofst, n) then 1 else 0
  {
  }

  ghost predicate MembersThere(tab: seq<Slot>, n: nat, es: seq<Slot>, ofst: int)
    requires n <= |tab|
  {
    forall q :: 0 <= q < |es| ==> 0 <= ofst + es[q].lookahead < n && tab[ofst + es[q].lookahead] == es[q]
  }

  /** All members are there and the count is right: then it is the very same set. */
  lemma ThereExactly(tab: seq<Slot>, n: nat, es: seq<Slot>, ofst: int)
    requires SetOk(es) && n <= |tab|
    ensures AlreadyThere(tab, n, es, ofst) <==> MembersThere(tab, n, es, ofst) && |Hits(tab, n, ofst)| == |es|
  {
    hide Hits;
    PlacesExact(es, ofst);
    if AlreadyThere(tab, n, es, ofst) {
      forall q | 0 <= q < |es| ensures 0 <= ofst + es[q].lookahead < n && tab[ofst + es[q].lookahead] == es[q] {
        ActionOfExact(es, es[q].lookahead);
        assert Wants(es, ofst, ofst + es[q].lookahead);
      }
    }
    if MembersThere(tab, n, es, ofst) {
      MembersAreHits(tab, n, es, ofst);
      SubsetSize(Places(es, ofst), Hits(tab, n, ofst));
    }
  }

  lemma MembersAreHits(tab: seq<Slot>, n: nat, es: seq<Slot>, ofst: int)
    requires SetOk(es) && n <= |tab| && MembersThere(tab, n, es, ofst)
    ensures Places(es, ofst) <= Hits(tab, n, ofst)
    ensures AlreadyThere(tab, n, es, ofst) <==> Places(es, ofst) == Hits(tab, n, ofst)
  {
    PlacesExact(es, ofst);
    hide SetOk, ActionOf, Places;
    forall k | Wants(es, ofst, k) ensures 0 <= k < n && tab[k] == Member(es, ofst, k) {
      MemberThere(tab, n, es, ofst, k);
    }
    hide MembersThere;
  }

  lemma MemberThere(tab: seq<Slot>, n: nat, es: seq<Slot>, ofst: int, k: int)
    requires SetOk(es) && n <= |tab| && MembersThere(tab, n, es, ofst) && Wants(es, ofst, k)
    ensures 0 <= k < n && tab[k] == Member(es, ofst, k)
  {
    ActionOfExact(es, k - ofst);
    var i :| 0 <= i < |es| && es[i].lookahead == k - ofst;
  }

  // ---------------------------------------------------------------------------
  // The table under construction

  ghost predicate Staged(es: seq<Slot>, mn: int, mnAction: int, mx: int) {
    && SetOk(es)
    && (es != [] ==> Slot(mn, mnAction) in es && exists i :: 0 <= i < |es| && es[i].lookahead == mx)
    && forall i :: 0 <= i < |es| ==> mn <= es[i].lookahead <= mx
  }

  lemma StagedMore(es: seq<Slot>, mn: int, mnAction: int, mx: int, lookahead: nat, action: int)
    requires Staged(es, mn, mnAction, mx) && forall i :: 0 <= i < |es| ==> es[i].lookahead != lookahead
    ensures var more := es + [Slot(lookahead, action)];
            if es == [] then Staged(more, lookahead, action, lookahead)
            else Staged(more, if mn > lookahead then lookahead else mn, if mn > lookahead then action else mnAction,
                        if mx < lookahead then lookahead else mx)
  {
    var more := es + [Slot(lookahead, action)];
    assert more[|es|].lookahead == lookahead;
    if es != [] {
      var i :| 0 <= i < |es| && es[i].lookahead == mx;
      assert more[i].lookahead == mx;
    }
  }

  /** `realloc`, with the new slots cleared. */
  method Reallocated(slots: array<Slot>, size: nat) returns (bigger: array<Slot>)
    requires slots.Length <= size
    ensures fresh(bigger) && bigger.Length == size && bigger[..slots.Length] == slots[..]
    ensures forall k :: slots.Length <= k < size ==> bigger[k] == Empty
  {
    bigger := new Slot[size];
    for i := 0 to slots.Length
      invariant bigger[..i] == slots[..i]
    {
      bigger[i] := slots[i];
    }
    for i := slots.Length to size
      invariant bigger[..slots.Length] == slots[..]
      invariant forall k :: slots.Length <= k < i ==> bigger[k] == Empty
    {
      bigger[i] := Empty;
    }
  }

  class Acttab {
    var nAction: nat
    var aAction: array<Slot>
    var aLookahead: seq<Slot>
    var mnLookahead: int
    var mnAction: int
    var mxLookahead: int
    /** Every set inserted so far, with its offset. */
    ghost var packed: seq<(int, seq<Slot>)>

    ghost predicate Valid()
      reads this, aAction
    {
      && TailEmpty(aAction[..], nAction)
      && Staged(aLookahead, mnLookahead, mnAction, mxLookahead)
      && AllPacked(aAction[..], nAction, packed)
    }

    /** `acttab_alloc`. */
    constructor ()
      ensures Valid() && fresh(aAction) && aLookahead == [] && packed == []
    {
      nAction, aAction := 0, new Slot[0];
      aLookahead, mnLookahead, mnAction, mxLookahead := [], 0, 0, 0;
      packed := [];
    }

    /** `acttab_action`. */
    method Add(lookahead: nat, action: int)
      requires Valid() && forall i :: 0 <= i < |aLookahead| ==> aLookahead[i].lookahead != lookahead
      modifies this`aLookahead, this`mnLookahead, this`mnAction, this`mxLookahead
      ensures Valid() && aLookahead == old(aLookahead) + [Slot(lookahead, action)]
    {
      hide Staged, AllPacked, TailEmpty, SetOk;
      StagedMore(aLookahead, mnLookahead, mnAction, mxLookahead, lookahead, action);
      if aLookahead == [] {
        mxLookahead, mnLookahead, mnAction := lookahead, lookahead, action;
      } else {
        if mxLookahead < lookahead { mxLookahead := lookahead; }
        if mnLookahead > lookahead { mnLookahead, mnAction := lookahead, action; }
      }
      aLookahead := aLookahead + [Slot(lookahead, action)];
    }

    /** Room for the set behind the used part, whatever happens. */
    ghost predicate Roomy()
      reads this, aAction
    {
      nAction + mxLookahead < aAction.Length
    }

    method Grow()
      requires Valid() && aLookahead != []
      modifies this`aAction
      ensures Valid() && Roomy() && (aAction == old(aAction) || fresh(aAction))
    {
      var n := mxLookahead + 1;
      if nAction + n >= aAction.Length {
        var bigger := Reallocated(aAction, nAction + n + aAction.Length + 20);
        GrownOk(aAction[..], bigger[..], nAction);
        aAction := bigger;
      }
    }

    /** Does the set fit into unused slots with its least lookahead at slot `i`? */
    method FitsAt(i: nat) returns (fits: bool)
      requires Valid() && Roomy() && aLookahead != [] && i < nAction + mnLookahead
      ensures fits <==> FitsClear(aAction[..], nAction, aLookahead, i - mnLookahead)
    {
      ghost var tab, ofst := aAction[..], i - mnLookahead;
      var j := 0;
      while j < |aLookahead|
        invariant 0 <= j <= |aLookahead|
        invariant forall q :: 0 <= q < j ==> aAction[aLookahead[q].lookahead - mnLookahead + i].lookahead < 0
      {
        var k := aLookahead[j].lookahead - mnLookahead + i;
        assert Wants(aLookahead, ofst, k) by { ActionOfExact(aLookahead, aLookahead[j].lookahead); }
        if k < 0 || aAction[k].lookahead >= 0 { return false; }
        j := j + 1;
      }
      j := 0;
      while j < nAction
        invariant 0 <= j <= nAction
        invariant forall q :: 0 <= q < j ==> aAction[q].lookahead != q + mnLookahead - i
      {
        if aAction[j].lookahead == j + mnLookahead - i {
          assert tab[j].lookahead == j - ofst;
          return false;
        }
        j := j + 1;
      }
      fits := true;
      forall k | Wants(aLookahead, ofst, k) ensures 0 <= k < aAction.Length && tab[k].lookahead < 0 {
        ActionOfExact(aLookahead, k - ofst);
      }
    }

    /** Are all members of the set there, with the least lookahead at slot `i`? */
    method MembersAt(i: nat) returns (there: bool)
      requires Valid() && aLookahead != []
      ensures there <==> MembersThere(aAction[..], nAction, aLookahead, i - mnLookahead)
    {
      for j := 0 to |aLookahead|
        invariant forall q :: 0 <= q < j ==> 0 <= aLookahead[q].lookahead - mnLookahead + i < nAction
                                             && aAction[aLookahead[q].lookahead - mnLookahead + i] == aLookahead[q]
      {
        var k := aLookahead[j].lookahead - mnLookahead + i;
        if k < 0 || k >= nAction { return false; }
        if aLookahead[j].lookahead != aAction[k].lookahead { return false; }
        if aLookahead[j].action != aAction[k].action { return false; }
      }
      there := true;
    }

    /** How many used slots would be taken for members? */
    method CountHits(i: nat) returns (n: nat)
      requires nAction <= aAction.Length
      ensures n == |Hits(aAction[..], nAction, i - mnLookahead)|
    {
      n := 0;
      ghost var tab, ofst := aAction[..], i - mnLookahead;
      assert Hits(tab, 0, ofst) == {};
      for j := 0 to nAction
        invariant n == |Hits(tab, j, ofst)|
      {
        HitsNext(tab, j, ofst);
        if aAction[j].lookahead >= 0 && aAction[j].lookahead == j + mnLookahead - i {
          n := n + 1;
        }
      }
    }

    /** Is the very same set already there with its least lookahead at slot `i`? */
    method SameAt(i: nat) returns (same: bool)
      requires Valid() && aLookahead != []
      ensures same <==> AlreadyThere(aAction[..], nAction, aLookahead, i - mnLookahead)
    {
      ThereExactly(aAction[..], nAction, aLookahead, i - mnLookahead);
      same := MembersAt(i);
      if same {
        var n := CountHits(i);
        same := n == |aLookahead|;
      }
    }

    /** A place where the set can go: free, or holding the set already. */
    ghost predicate Suitable(i: nat)
      reads this, aAction
      requires i < aAction.Length
    {
      var tab, ofst := aAction[..], i - mnLookahead;
      if tab[i].lookahead < 0 then FitsClear(tab, nAction, aLookahead, ofst)
      else tab[i] == Slot(mnLookahead, mnAction) && AlreadyThere(tab, nAction, aLookahead, ofst)
    }

    /** The scan for an offset: the first suitable place, or else behind everything. */
    method FindPlace() returns (i: nat)
      requires Valid() && Roomy() && aLookahead != []
      ensures var ofst := i - mnLookahead;
              Fits(aAction[..], nAction, aLookahead, ofst) || AlreadyThere(aAction[..], nAction, aLookahead, ofst)
      ensures i <= nAction + mnLookahead < aAction.Length
      ensures i < nAction + mnLookahead ==> Suitable(i)
      ensures forall k :: 0 <= k < i ==> !Suitable(k)
    {
      hide FitsClear, AlreadyThere, Fits, SetOk, TailEmpty, AllPacked;
      LeastIsWithin(aLookahead, mnLookahead, mnAction, mxLookahead);
      i := 0;
      while i < nAction + mnLookahead
        invariant i <= nAction + mnLookahead
        invariant forall k :: 0 <= k < i ==> !Suitable(k)
      {
        ClearIsFree(aAction[..], nAction, aLookahead, i - mnLookahead);
        if aAction[i].lookahead < 0 {
          var fits := FitsAt(i);
          if fits { return; }
        } else if aAction[i].lookahead == mnLookahead && aAction[i].action == mnAction {
          var same := SameAt(i);
          if same { return; }
        }
        i := i + 1;
      }
      AppendFits(aAction[..], nAction, aLookahead, mxLookahead);
    }

    /** `acttab_insert`: the staged set is packed at the offset returned; it and
        every set packed before can be looked up at their offsets. */
    method Insert() returns (ofst: int)
      requires Valid() && aLookahead != []
      modifies this, aAction
      ensures Valid() && aLookahead == []
      ensures packed == old(packed) + [(ofst, old(aLookahead))]
      ensures aAction == old(aAction) || fresh(aAction)
    {
      hide Fits, AlreadyThere, FitsClear, Written, UsedAfter, TailEmpty, Holds, Wants, SetOk, Staged, AllPacked;
      Grow();
      var i := FindPlace();
      ofst := i - mnLookahead;
      ghost var es, before, n := aLookahead, aAction[..], nAction;
      LeastIsWithin(es, mnLookahead, mnAction, mxLookahead);
      WantedInRange(before, n, es, ofst);
      Write(i, ofst);
      PackOne(before, n, es, ofst, aAction[..], nAction, packed);
      aLookahead := [];
      packed := packed + [(ofst, es)];
      NothingStaged(mnLookahead, mnAction, mxLookahead);
    }

    method Write(i: nat, ghost ofst: int)
      requires SetOk(aLookahead) && nAction <= aAction.Length && ofst == i - mnLookahead
      requires forall k :: Wants(aLookahead, ofst, k) ==> 0 <= k < aAction.Length
      modifies aAction, this`nAction
      ensures nAction <= aAction.Length
      ensures Written(old(aAction[..]), aLookahead, ofst, aAction[..])
      ensures UsedAfter(old(nAction), aLookahead, ofst, nAction)
    {
      var j := 0;
      while j < |aLookahead|
        invariant 0 <= j <= |aLookahead| && nAction <= aAction.Length
        invariant Written(old(aAction[..]), aLookahead[..j], ofst, aAction[..])
        invariant UsedAfter(old(nAction), aLookahead[..j], ofst, nAction)
      {
        var k := aLookahead[j].lookahead - mnLookahead + i;
        assert Wants(aLookahead, ofst, k) by { ActionOfExact(aLookahead, aLookahead[j].lookahead); }
        WriteStep(old(aAction[..]), old(nAction), aLookahead, j, ofst, aAction[..], nAction);
        ghost var before := aAction[..];
        aAction[k] := aLookahead[j];
        assert aAction[..] == before[k := aLookahead[j]];
        if k >= nAction { nAction := k + 1; }
        j := j + 1;
      }
      assert aLookahead[..j] == aLookahead;
    }
  }

  lemma GrownOk(a: seq<Slot>, b: seq<Slot>, n: nat)
    requires |a| <= |b| && b[..|a|] == a && n <= |a| && forall k :: |a| <= k < |b| ==> b[k] == Empty
    ensures TailEmpty(a, n) ==> TailEmpty(b, n)
    ensures forall ofst, es :: Holds(a, n, ofst, es) ==> Holds(b, n, ofst, es)
  {
    assert forall k :: 0 <= k < |a| ==> b[k] == b[..|a|][k];
    forall ofst, es | Holds(a, n, ofst, es) ensures Holds(b, n, ofst, es) {
      forall x | x >= 0 ensures Lookup(b, n, ofst, x) == ActionOf(es, x) {
        assert Lookup(a, n, ofst, x) == ActionOf(es, x);
      }
    }
  }

  lemma WantedInRange(tab: seq<Slot>, n: nat, es: seq<Slot>, ofst: int)
    requires TailEmpty(tab, n) && (Fits(tab, n, es, ofst) || AlreadyThere(tab, n, es, ofst))
    ensures n <= |tab| && forall k :: Wants(es, ofst, k) ==> 0 <= k < |tab|
  {
  }

  lemma NothingStaged(mn: int, mnAction: int, mx: int)
    ensures Staged([], mn, mnAction, mx)
  {
  }

  lemma LeastIsWithin(es: seq<Slot>, mn: int, mnAction: int, mx: int)
    requires Staged(es, mn, mnAction, mx) && es != []
    ensures 0 <= mn <= mx && SetOk(es) && forall i :: 0 <= i < |es| ==> es[i].lookahead <= mx
  {
    var i :| 0 <= i < |es| && es[i] == Slot(mn, mnAction);
  }

  lemma PrefixAt(es: seq<Slot>, j: nat, x: int)
    requires SetOk(es) && j < |es|
    ensures ActionOf(es[..j + 1], x) == if x == es[j].lookahead then Some(es[j].action) else ActionOf(es[..j], x)
  {
    assert es[..j + 1] == es[..j] + [es[j]];
    ActionOfAppend(es[..j], es[j], x);
    ActionOfExact(es[..j], x);
    if ActionOf(es[..j], x).Some? {
      var i :| 0 <= i < |es[..j]| && es[..j][i].lookahead == x;
      assert es[i].lookahead == x;
    }
  }

  /** One more member written. */
  lemma WriteStep(tab: seq<Slot>, n: nat, es: seq<Slot>, j: nat, ofst: int, after: seq<Slot>, n': nat)
    requires SetOk(es) && j < |es| && 0 <= ofst + es[j].lookahead < |tab|
    requires Written(tab, es[..j], ofst, after) && UsedAfter(n, es[..j], ofst, n')
    ensures var k := ofst + es[j].lookahead;
            && Written(tab, es[..j + 1], ofst, after[k := es[j]])
            && UsedAfter(n, es[..j + 1], ofst, if k >= n' then k + 1 else n')
  {
    var a, b, p := es[..j], es[..j + 1], ofst + es[j].lookahead;
    var last := after[p := es[j]];
    forall k: int ensures Wants(b, ofst, k) <==> Wants(a, ofst, k) || k == p {
      PrefixAt(es, j, k - ofst);
    }
    forall k | 0 <= k < |tab| ensures last[k] == if Wants(b, ofst, k) then Member(b, ofst, k) else tab[k] {
      PrefixAt(es, j, k - ofst);
    }
    assert Wants(b, ofst, p);
  }

  lemma {:induction false} ActionOfAppend(es: seq<Slot>, e: Slot, x: int)
    ensures ActionOf(es + [e], x) ==
            if ActionOf(es, x).Some? then ActionOf(es, x) else if e.lookahead == x then Some(e.action) else None
  {
    if es == [] {
      assert es + [e] == [e];
    } else {
      assert (es + [e])[1..] == es[1..] + [e];
      ActionOfAppend(es[1..], e, x);
    }
  }
}
