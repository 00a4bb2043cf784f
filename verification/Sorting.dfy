/** Stable sorting, the specification of LEMON's `msort`. */
module Sorting {

  ghost predicate TotalPreorder<T(!new)>(cmp: (T, T) -> int) {
    && (forall x, y :: cmp(x, y) <= 0 || cmp(y, x) <= 0)
    && (forall x, y, z :: cmp(x, y) <= 0 && cmp(y, z) <= 0 ==> cmp(x, z) <= 0)
    && (forall x, y :: cmp(x, y) < 0 <==> !(cmp(y, x) <= 0))
  }

  ghost predicate Sorted<T>(cmp: (T, T) -> int, s: seq<T>) {
    forall i, j :: 0 <= i < j < |s| ==> cmp(s[i], s[j]) <= 0
  }

  /** `x` goes in front of the elements it does not exceed. */
  function Insert<T>(cmp: (T, T) -> int, x: T, s: seq<T>): seq<T> {
    if s == [] then [x]
    else if cmp(x, s[0]) <= 0 then [x] + s
    else [s[0]] + Insert(cmp, x, s[1..])
  }

  /** The sorted rearrangement that keeps equals in their order. */
  function StableSort<T>(cmp: (T, T) -> int, s: seq<T>): seq<T> {
    if s == [] then [] else Insert(cmp, s[0], StableSort(cmp, s[1..]))
  }

  lemma {:induction false} InsertElements<T>(cmp: (T, T) -> int, x: T, s: seq<T>)
    ensures multiset(Insert(cmp, x, s)) == multiset{x} + multiset(s)
  {
    if s != [] && !(cmp(x, s[0]) <= 0) {
      InsertElements(cmp, x, s[1..]);
      assert s == [s[0]] + s[1..];
    }
  }

  lemma {:induction false} StableSortElements<T>(cmp: (T, T) -> int, s: seq<T>)
    ensures multiset(StableSort(cmp, s)) == multiset(s)
    ensures |StableSort(cmp, s)| == |s|
  {
    if s != [] {
      StableSortElements(cmp, s[1..]);
      InsertElements(cmp, s[0], StableSort(cmp, s[1..]));
      assert s == [s[0]] + s[1..];
    }
    assert |StableSort(cmp, s)| == |multiset(StableSort(cmp, s))|;
  }

  lemma SortedCons<T(!new)>(cmp: (T, T) -> int, x: T, s: seq<T>)
    requires Sorted(cmp, s) && forall y :: y in s ==> cmp(x, y) <= 0
    ensures Sorted(cmp, [x] + s)
  {
  }

  lemma Through<T(!new)>(cmp: (T, T) -> int, x: T, y: T, z: T)
    requires TotalPreorder(cmp)
    ensures cmp(x, x) <= 0
    ensures cmp(x, y) <= 0 && cmp(y, z) <= 0 ==> cmp(x, z) <= 0
    ensures !(cmp(z, y) <= 0) ==> cmp(y, z) <= 0
  {
  }

  lemma {:induction false} InsertSorted<T(!new)>(cmp: (T, T) -> int, x: T, s: seq<T>)
    requires TotalPreorder(cmp) && Sorted(cmp, s)
    ensures Sorted(cmp, Insert(cmp, x, s))
  {
    if s != [] {
      var tail := s[1..];
      if cmp(x, s[0]) <= 0 {
        forall y | y in s ensures cmp(x, y) <= 0 {
          if y != s[0] { Through(cmp, x, s[0], y); }
        }
        SortedCons(cmp, x, s);
      } else {
        InsertSorted(cmp, x, tail);
        InsertElements(cmp, x, tail);
        forall y | y in Insert(cmp, x, tail) ensures cmp(s[0], y) <= 0 {
          assert y in multiset(Insert(cmp, x, tail));
          assert y == x || y in tail;
          Through(cmp, s[0], s[0], y);
        }
        SortedCons(cmp, s[0], Insert(cmp, x, tail));
      }
    }
  }

  lemma {:induction false} StableSortSorted<T(!new)>(cmp: (T, T) -> int, s: seq<T>)
    requires TotalPreorder(cmp)
    ensures Sorted(cmp, StableSort(cmp, s))
  {
    if s != [] {
      StableSortSorted(cmp, s[1..]);
      InsertSorted(cmp, s[0], StableSort(cmp, s[1..]));
    }
  }

  function Elems<T>(s: seq<T>): set<T> { set x | x in s }

  predicate NoDup<T(==)>(s: seq<T>) {
    forall i, j :: 0 <= i < j < |s| ==> s[i] != s[j]
  }

  lemma {:induction false} NoDupMultiset<T>(s: seq<T>)
    ensures NoDup(s) <==> forall x :: x in s ==> multiset(s)[x] == 1
  {
    if s != [] {
      var tail := s[1..];
      NoDupMultiset(tail);
      assert s == [s[0]] + tail;
      assert NoDup(s) <==> NoDup(tail) && s[0] !in tail;
      assert forall x :: x in s <==> x == s[0] || x in tail;
      if s[0] !in tail {
        assert multiset(tail)[s[0]] == 0;
      }
    }
  }

  lemma StableSortSame<T>(cmp: (T, T) -> int, s: seq<T>)
    ensures Elems(StableSort(cmp, s)) == Elems(s)
    ensures NoDup(s) ==> NoDup(StableSort(cmp, s))
    ensures forall x :: x in StableSort(cmp, s) <==> x in s
  {
    StableSortElements(cmp, s);
    NoDupMultiset(s);
    NoDupMultiset(StableSort(cmp, s));
    forall x ensures x in StableSort(cmp, s) <==> x in s {
      assert x in s <==> x in multiset(s);
      assert x in StableSort(cmp, s) <==> x in multiset(StableSort(cmp, s));
    }
    SameElems(StableSort(cmp, s), s);
  }

  lemma SameElems<T>(a: seq<T>, b: seq<T>)
    requires multiset(a) == multiset(b)
    ensures Elems(a) == Elems(b)
  {
    forall x ensures x in Elems(a) <==> x in Elems(b) {
      assert x in a <==> x in multiset(a);
      assert x in b <==> x in multiset(b);
    }
  }

  /** Sorting without repetitions gives each set one representation. */
  lemma {:induction false} SortedUnique<T(!new)>(cmp: (T, T) -> int, a: seq<T>, b: seq<T>)
    requires TotalPreorder(cmp) && forall x, y :: cmp(x, y) <= 0 && cmp(y, x) <= 0 ==> x == y
    requires Sorted(cmp, a) && Sorted(cmp, b) && NoDup(a) && NoDup(b) && Elems(a) == Elems(b)
    ensures a == b
  {
    assert a != [] ==> a[0] in Elems(b);
    assert b != [] ==> b[0] in Elems(a);
    if a != [] {
      assert a[0] in Elems(b) && b[0] in Elems(a);
      assert a[0] == b[0];
      forall x ensures x in a[1..] <==> x in b[1..] {
        assert x in a[1..] <==> x in Elems(a) && x != a[0];
        assert x in b[1..] <==> x in Elems(b) && x != b[0];
      }
      SortedUnique(cmp, a[1..], b[1..]);
    }
  }

  lemma {:induction false} SubsetSize<T>(a: set<T>, b: set<T>)
    requires a <= b
    ensures |a| <= |b|
    ensures |a| == |b| ==> a == b
  {
    if a != {} {
      var x :| x in a;
      SubsetSize(a - {x}, b - {x});
    }
  }
}
