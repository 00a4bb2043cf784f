/** `merge` and `msort`: LEMON's bottom-up merge sort of linked lists, with a fixed
    number of slots for the sorted runs. */
module MergeSort {
  import opened Powers
  import opened Sorting

  // ---------------------------------------------------------------------------
  // Stability

  /** The elements of `s` that the comparison does not tell from `z`, in order. */
  function Equals<T>(cmp: (T, T) -> int, z: T, s: seq<T>): seq<T> {
    if s == [] then []
    else (if cmp(z, s[0]) <= 0 && cmp(s[0], z) <= 0 then [s[0]] else []) + Equals(cmp, z, s[1..])
  }

  lemma {:induction false} InsertStable<T(!new)>(cmp: (T, T) -> int, z: T, x: T, s: seq<T>)
    requires TotalPreorder(cmp)
    ensures Equals(cmp, z, Insert(cmp, x, s)) == Equals(cmp, z, [x] + s)
  {
    assert ([x] + s)[1..] == s;
    if s != [] && !(cmp(x, s[0]) <= 0) {
      InsertStable(cmp, z, x, s[1..]);
      assert ([x] + s[1..])[1..] == s[1..];
      Through(cmp, x, z, s[0]);
    }
  }

  /** Sorting keeps elements of the same rank in their order. */
  lemma {:induction false} StableSortStable<T(!new)>(cmp: (T, T) -> int, z: T, s: seq<T>)
    requires TotalPreorder(cmp)
    ensures Equals(cmp, z, StableSort(cmp, s)) == Equals(cmp, z, s)
  {
    if s != [] {
      StableSortStable(cmp, z, s[1..]);
      InsertStable(cmp, z, s[0], StableSort(cmp, s[1..]));
      assert s == [s[0]] + s[1..];
      assert ([s[0]] + StableSort(cmp, s[1..]))[1..] == StableSort(cmp, s[1..]);
    }
  }

  // ---------------------------------------------------------------------------
  // Merging

  /** Of two equal heads the one of `b` goes first. */
  function Merged<T>(cmp: (T, T) -> int, a: seq<T>, b: seq<T>): seq<T> {
    if a == [] then b
    else if b == [] then a
    else if cmp(a[0], b[0]) < 0 then [a[0]] + Merged(cmp, a[1..], b)
    else [b[0]] + Merged(cmp, a, b[1..])
  }

  method Merge<T>(a: seq<T>, b: seq<T>, cmp: (T, T) -> int) returns (head: seq<T>)
    ensures head == Merged(cmp, a, b)
  {
    if a == [] {
      head := b;
    } else if b == [] {
      head := a;
    } else {
      var x, y := a, b;
      if cmp(x[0], y[0]) < 0 {
        head, x := [x[0]], x[1..];
      } else {
        head, y := [y[0]], y[1..];
      }
      while x != [] && y != []
        invariant head + Merged(cmp, x, y) == Merged(cmp, a, b)
        decreases |x| + |y|
      {
        if cmp(x[0], y[0]) < 0 {
          head, x := head + [x[0]], x[1..];
        } else {
          head, y := head + [y[0]], y[1..];
        }
      }
      head := head + if x != [] then x else y;
    }
  }

  /** Inserting commutes with merging, when what is inserted comes from the list
      that wins ties. */
  lemma {:induction false} MergeInsert<T(!new)>(cmp: (T, T) -> int, s: seq<T>, x: T, t: seq<T>)
    requires TotalPreorder(cmp)
    ensures Merged(cmp, s, Insert(cmp, x, t)) == Insert(cmp, x, Merged(cmp, s, t))
    decreases |s| + |t|
  {
    if s != [] && t == [] {
      MergeInsert(cmp, s[1..], x, []);
      assert [x][1..] == [];
    } else if s != [] && t != [] {
      Through(cmp, s[0], t[0], x);
      Through(cmp, x, t[0], s[0]);
      assert cmp(s[0], x) < 0 && cmp(x, t[0]) <= 0 ==> cmp(s[0], t[0]) < 0;
      assert ([x] + t)[1..] == t;
      if cmp(s[0], t[0]) < 0 { MergeInsert(cmp, s[1..], x, t); }
      else { MergeInsert(cmp, s, x, t[1..]); }
    }
  }

  lemma SortCons<T>(cmp: (T, T) -> int, x: T, s: seq<T>)
    ensures StableSort(cmp, [x] + s) == Insert(cmp, x, StableSort(cmp, s))
  {
    assert ([x] + s)[1..] == s;
  }

  lemma MergedFirst<T>(cmp: (T, T) -> int, a: seq<T>)
    ensures Merged(cmp, a, StableSort(cmp, [])) == a
  {
  }

  /** Merging a sorted later part with a sorted earlier part sorts both. */
  lemma {:induction false} MergeSorts<T(!new)>(cmp: (T, T) -> int, earlier: seq<T>, later: seq<T>)
    requires TotalPreorder(cmp)
    ensures Merged(cmp, StableSort(cmp, later), StableSort(cmp, earlier)) == StableSort(cmp, earlier + later)
  {
    hide *;
    if earlier == [] {
      MergedFirst(cmp, StableSort(cmp, later));
      assert earlier + later == later;
    } else {
      var x, rest := earlier[0], earlier[1..];
      MergeSorts(cmp, rest, later);
      MergeInsert(cmp, StableSort(cmp, later), x, StableSort(cmp, rest));
      SortCons(cmp, x, rest);
      SortCons(cmp, x, rest + later);
      assert earlier == [x] + rest && earlier + later == [x] + (rest + later);
    }
  }

  lemma MergeRuns<T(!new)>(cmp: (T, T) -> int, s: seq<T>, lo: nat, mid: nat, hi: nat)
    requires TotalPreorder(cmp) && lo <= mid <= hi <= |s|
    ensures Merged(cmp, StableSort(cmp, s[mid..hi]), StableSort(cmp, s[lo..mid])) == StableSort(cmp, s[lo..hi])
  {
    MergeSorts(cmp, s[lo..mid], s[mid..hi]);
    assert s[lo..mid] + s[mid..hi] == s[lo..hi];
  }

  // ---------------------------------------------------------------------------
  // The slots

  /** `k` rounded down to a multiple of 2^i. */
  function Floor(k: nat, i: nat): nat { if i == 0 then k else 2 * Floor(k / 2, i - 1) }

  /** Binary digit i of k. */
  function Bit(k: nat, i: nat): nat { if i == 0 then k % 2 else Bit(k / 2, i - 1) }

  /** 2^i divides k. */
  predicate Divides(i: nat, k: nat) { i == 0 || (k % 2 == 0 && Divides(i - 1, k / 2)) }

  /** Rounding once more takes away the next binary digit. */
  lemma {:induction false} FloorStep(k: nat, i: nat)
    ensures Bit(k, i) <= 1
    ensures Floor(k, i + 1) == Floor(k, i) - (if Bit(k, i) == 1 then Pow2(i) else 0)
    ensures Floor(k, i) <= k < Floor(k, i) + Pow2(i)
    ensures k < Pow2(i) <==> Floor(k, i) == 0
    ensures k >= Pow2(i) <==> Floor(k, i) >= Pow2(i)
    ensures k >= 2 * Pow2(i) <==> Floor(k, i) > Pow2(i)
    decreases i
  {
    if i > 0 { FloorStep(k / 2, i - 1); }
  }

  /** Counting one up where 2^i divides k + 1. */
  lemma {:induction false} FloorCarry(k: nat, i: nat)
    requires Divides(i, k + 1)
    ensures Floor(k, i) == k + 1 - Pow2(i) && Floor(k + 1, i) == k + 1
    ensures Bit(k + 1, i) == 1 - Bit(k, i)
    ensures Bit(k, i) == 1 ==> Divides(i + 1, k + 1)
    decreases i
  {
    if i > 0 {
      assert (k + 1) / 2 == k / 2 + 1;
      FloorCarry(k / 2, i - 1);
    }
  }

  lemma {:induction false} FloorBelow(k: nat, j: nat, i: nat)
    requires j <= i && Divides(i, k)
    ensures Floor(k, j) == k
    decreases j
  {
    if j > 0 { FloorBelow(k / 2, j - 1, i - 1); }
  }

  lemma {:induction false} FloorAbove(k: nat, i: nat, j: nat)
    requires i < j && Divides(i, k + 1) && Bit(k, i) == 0
    ensures Floor(k + 1, j) == Floor(k, j)
    decreases i
  {
    if i == 0 {
      assert (k + 1) / 2 == k / 2;
    } else {
      assert (k + 1) / 2 == k / 2 + 1;
      FloorAbove(k / 2, i - 1, j - 1);
    }
  }

  /** Slot i of `size` holds this much of the list after k elements: 2^i of them if
      binary digit i of k is set. The last slot has only room for the most recent
      2^(size-1) elements of what should go there. */
  function From(size: nat, k: nat, i: nat): (r: nat)
    ensures r <= Floor(k, i) <= k
  {
    FloorStep(k, i);
    if i + 1 < size then Floor(k, i + 1)
    else if k < Pow2(i) then Floor(k, i)
    else Floor(k, i) - Pow2(i)
  }

  /** Elements at the front of a list of n that get lost. */
  function Lost(size: nat, n: nat): nat
    requires size > 0
  {
    From(size, n, size - 1)
  }

  ghost predicate SlotsHold<T>(cmp: (T, T) -> int, list: seq<T>, k: nat, slots: seq<seq<T>>)
    requires k <= |list|
  {
    forall i :: 0 <= i < |slots| ==> SlotHolds(cmp, list, k, slots, i)
  }

  ghost predicate SlotHolds<T>(cmp: (T, T) -> int, list: seq<T>, k: nat, slots: seq<seq<T>>, i: nat)
    requires k <= |list| && i < |slots|
  {
    slots[i] == StableSort(cmp, list[From(|slots|, k, i)..Floor(k, i)])
  }

  /** A slot is empty or holds exactly 2^i elements. */
  lemma SlotSize<T>(cmp: (T, T) -> int, list: seq<T>, k: nat, slots: seq<seq<T>>, i: nat)
    requires k <= |list| && SlotsHold(cmp, list, k, slots) && i < |slots|
    ensures slots[i] == [] || |slots[i]| == Pow2(i)
    ensures i + 1 < |slots| ==> (slots[i] == [] <==> Bit(k, i) == 0) && (slots[i] != [] <==> Bit(k, i) == 1)
  {
    assert SlotHolds(cmp, list, k, slots, i);
    FloorStep(k, i);
    StableSortElements(cmp, list[From(|slots|, k, i)..Floor(k, i)]);
  }

  /** The run carried up to slot i: the last 2^i elements, all slots below being
      empty. */
  ghost predicate Carried<T>(cmp: (T, T) -> int, list: seq<T>, k: nat, was: seq<seq<T>>, slots: seq<seq<T>>, ep: seq<T>,
                             i: nat)
    requires k < |list|
  {
    && i < |slots| == |was| && SlotsHold(cmp, list, k, was)
    && Divides(i, k + 1) && Pow2(i) <= k + 1 && ep == StableSort(cmp, list[k + 1 - Pow2(i)..k + 1])
    && (forall j :: 0 <= j < i ==> slots[j] == [])
    && (forall j :: i <= j < |slots| ==> slots[j] == was[j])
  }

  lemma CarryStarts<T>(cmp: (T, T) -> int, list: seq<T>, k: nat, slots: seq<seq<T>>)
    requires k < |list| && slots != [] && SlotsHold(cmp, list, k, slots)
    ensures Carried(cmp, list, k, slots, slots, [list[k]], 0)
  {
    assert list[k..k + 1] == [list[k]];
    assert [list[k]][1..] == [];
  }

  lemma CarryOn<T(!new)>(cmp: (T, T) -> int, list: seq<T>, k: nat, was: seq<seq<T>>, slots: seq<seq<T>>, ep: seq<T>,
                  i: nat)
    requires TotalPreorder(cmp) && k < |list| && Carried(cmp, list, k, was, slots, ep, i) && i + 1 < |slots|
    requires slots[i] != []
    ensures Carried(cmp, list, k, was, slots[i := []], Merged(cmp, ep, slots[i]), i + 1)
  {
    hide StableSort, Merged, TotalPreorder, Bit, Floor, Divides, Pow2;
    SlotSize(cmp, list, k, was, i);
    assert SlotHolds(cmp, list, k, was, i);
    CarryMerge(cmp, list, k, ep, slots[i], i);
  }

  lemma CarryMerge<T(!new)>(cmp: (T, T) -> int, list: seq<T>, k: nat, ep: seq<T>, slot: seq<T>, i: nat)
    requires TotalPreorder(cmp) && k < |list| && Divides(i, k + 1) && Bit(k, i) == 1 && Pow2(i) <= k + 1
    requires ep == StableSort(cmp, list[k + 1 - Pow2(i)..k + 1]) && Floor(k, i + 1) <= Floor(k, i) <= k
    requires slot == StableSort(cmp, list[Floor(k, i + 1)..Floor(k, i)])
    ensures Divides(i + 1, k + 1) && Pow2(i + 1) <= k + 1
    ensures Merged(cmp, ep, slot) == StableSort(cmp, list[k + 1 - Pow2(i + 1)..k + 1])
  {
    hide StableSort, Merged, TotalPreorder, Bit, Floor, Divides;
    FloorCarry(k, i);
    FloorStep(k, i);
    MergeRuns(cmp, list, Floor(k, i + 1), Floor(k, i), k + 1);
  }

  /** Storing the carried run accounts for one more element. */
  lemma CarryEnds<T>(cmp: (T, T) -> int, list: seq<T>, k: nat, was: seq<seq<T>>, slots: seq<seq<T>>, ep: seq<T>, i: nat)
    requires k < |list| && Carried(cmp, list, k, was, slots, ep, i) && (i + 1 < |slots| ==> slots[i] == [])
    ensures SlotsHold(cmp, list, k + 1, slots[i := ep])
  {
    hide StableSort, Bit, Floor, Divides, From;
    var k', slots' := k + 1, slots[i := ep];
    SlotSize(cmp, list, k, was, i);
    forall j | 0 <= j < |slots'| ensures SlotHolds(cmp, list, k', slots', j) {
      if j < i {
        BelowEmpty(|slots|, k', i, j);
        SortNothing(cmp, list[From(|slots|, k', j)..Floor(k', j)]);
      } else if j == i {
        AtCarry(|slots|, k, i);
      } else {
        assert SlotHolds(cmp, list, k, was, j);
        AboveUnchanged(|slots|, k, i, j);
      }
    }
  }

  lemma BelowEmpty(size: nat, k: nat, i: nat, j: nat)
    requires j < i < size && Divides(i, k)
    ensures From(size, k, j) == Floor(k, j)
  {
    FloorBelow(k, j, i);
    FloorBelow(k, j + 1, i);
  }

  lemma AtCarry(size: nat, k: nat, i: nat)
    requires i < size && Divides(i, k + 1) && Pow2(i) <= k + 1 && (i + 1 < size ==> Bit(k, i) == 0)
    ensures From(size, k + 1, i) == k + 1 - Pow2(i) && Floor(k + 1, i) == k + 1
  {
    FloorCarry(k, i);
    FloorStep(k + 1, i);
  }

  lemma AboveUnchanged(size: nat, k: nat, i: nat, j: nat)
    requires i < j < size && Divides(i, k + 1) && Bit(k, i) == 0
    ensures Floor(k + 1, j) == Floor(k, j) && From(size, k + 1, j) == From(size, k, j)
  {
    FloorAbove(k, i, j);
    FloorAbove(k, i, j + 1);
    FloorStep(k, j);
    FloorStep(k + 1, j);
  }

  /** Taking the next element in: merging equal-sized runs, like a carry. */
  method AddElement<T(!new)>(slots: array<seq<T>>, ghost list: seq<T>, ghost k: nat, x: T, cmp: (T, T) -> int)
    requires TotalPreorder(cmp) && k < |list| && list[k] == x && slots.Length > 0 && SlotsHold(cmp, list, k, slots[..])
    modifies slots
    ensures SlotsHold(cmp, list, k + 1, slots[..])
  {
    hide SlotsHold, Carried, TotalPreorder;
    ghost var was := slots[..];
    var ep := [x];
    var i := 0;
    CarryStarts(cmp, list, k, was);
    while i < slots.Length - 1 && slots[i] != []
      invariant i < slots.Length && Carried(cmp, list, k, was, slots[..], ep, i)
    {
      CarryOn(cmp, list, k, was, slots[..], ep, i);
      ep := Merge(ep, slots[i], cmp);
      ghost var before := slots[..];
      slots[i] := [];
      assert slots[..] == before[i := []];
      i := i + 1;
    }
    ghost var before := slots[..];
    CarryEnds(cmp, list, k, was, before, ep, i);
    slots[i] := ep;
    assert slots[..] == before[i := ep];
  }

  /** The list is sorted stably, except that with 2^size elements or more the first
      ones are lost. */
  method MsortWith<T(!new)>(slots: array<seq<T>>, list: seq<T>, cmp: (T, T) -> int) returns (ep: seq<T>)
    requires TotalPreorder(cmp) && slots.Length > 0
    modifies slots
    ensures ep == StableSort(cmp, list[Lost(slots.Length, |list|)..])
  {
    for i := 0 to slots.Length
      invariant forall j :: 0 <= j < i ==> slots[j] == []
    {
      slots[i] := [];
    }
    SlotsStart(cmp, list, slots[..]);
    hide SlotsHold, TotalPreorder;
    for k := 0 to |list|
      invariant SlotsHold(cmp, list, k, slots[..])
    {
      AddElement(slots, list, k, list[k], cmp);
    }
    ep := Collect(slots, list, cmp);
  }

  /** Merging what the slots hold, the latest elements first. */
  method Collect<T(!new)>(slots: array<seq<T>>, ghost list: seq<T>, cmp: (T, T) -> int) returns (ep: seq<T>)
    requires TotalPreorder(cmp) && slots.Length > 0 && SlotsHold(cmp, list, |list|, slots[..])
    ensures ep == StableSort(cmp, list[Lost(slots.Length, |list|)..])
  {
    hide TotalPreorder, StableSort, Floor, Pow2;
    ep := [];
    ghost var n: nat := |list|;
    ghost var from: nat := n;
    assert from == Floor(n, 0) by { FloorBelow(n, 0, 0); }
    assert ep == StableSort(cmp, list[n..]) by { SortNothing(cmp, list[n..]); }
    for i := 0 to slots.Length
      invariant from <= |list| && ep == StableSort(cmp, list[from..])
      invariant if i < slots.Length then from == Floor(n, i) else from == Lost(slots.Length, n)
    {
      assert SlotHolds(cmp, list, n, slots[..], i);
      ghost var from' := From(slots.Length, n, i);
      assert list[from..n] == list[from..] && list[from'..n] == list[from'..];
      MergeRuns(cmp, list, from', from, n);
      if slots[i] != [] {
        ep := Merge(ep, slots[i], cmp);
      } else {
        MergedNothing(cmp, ep);
      }
      from := from';
    }
  }

  lemma SortNothing<T>(cmp: (T, T) -> int, s: seq<T>)
    requires s == []
    ensures StableSort(cmp, s) == []
  {
  }

  lemma MergedNothing<T>(cmp: (T, T) -> int, a: seq<T>)
    ensures Merged(cmp, a, []) == a
  {
  }

  lemma SlotsStart<T>(cmp: (T, T) -> int, list: seq<T>, slots: seq<seq<T>>)
    requires forall i :: 0 <= i < |slots| ==> slots[i] == []
    ensures SlotsHold(cmp, list, 0, slots)
  {
    forall i | 0 <= i < |slots| ensures SlotHolds(cmp, list, 0, slots, i) {
      FloorStep(0, i);
    }
  }

  const LISTSIZE: nat := 30

  method Msort<T(!new)>(list: seq<T>, cmp: (T, T) -> int) returns (ep: seq<T>)
    requires TotalPreorder(cmp)
    ensures ep == StableSort(cmp, list) <==> |list| < Pow2(LISTSIZE)
    ensures ep == StableSort(cmp, list[Lost(LISTSIZE, |list|)..])
  {
    var slots := new seq<T>[LISTSIZE](_ => []);
    ep := MsortWith(slots, list, cmp);
    MsortExact(cmp, list, slots.Length);
  }

  /** A stable sort without loss, exactly for lists of fewer than 2^size elements. */
  lemma MsortExact<T(!new)>(cmp: (T, T) -> int, list: seq<T>, size: nat)
    requires size > 0
    ensures StableSort(cmp, list[Lost(size, |list|)..]) == StableSort(cmp, list) <==> |list| < Pow2(size)
  {
    LostNone(size, |list|);
    hide *;
    SortLength(cmp, list);
    SortLength(cmp, list[Lost(size, |list|)..]);
    if Lost(size, |list|) == 0 {
      assert list[0..] == list;
    }
  }

  lemma LostNone(size: nat, n: nat)
    requires size > 0
    ensures Lost(size, n) == 0 <==> n < Pow2(size)
  {
    assert Pow2(size) == 2 * Pow2(size - 1);
    hide Bit, Floor, Pow2;
    FloorStep(n, size - 1);
  }

  lemma SortLength<T>(cmp: (T, T) -> int, s: seq<T>)
    ensures |StableSort(cmp, s)| == |s|
  {
    StableSortElements(cmp, s);
  }
}
