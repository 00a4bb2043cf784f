/** `_quicksort` of the C library: median-of-three quicksort on an explicit stack
    down to small parts, then one insertion sort over all, with no bound checks
    in the scanning loops. Elements are compared and moved as wholes. */
module QuickSort {
  import opened Powers
  import opened Sorting

  const MAX_THRESH: nat := 4

  // ---------------------------------------------------------------------------
  // Rearranging part of an array

  /** `t` is `s` with the elements from `lo` to `hi` in another order. */
  ghost predicate Rearranged<T>(s: seq<T>, t: seq<T>, lo: nat, hi: nat) {
    && lo <= hi < |s| == |t| && multiset(s) == multiset(t)
    && (forall k :: 0 <= k < lo || hi < k < |s| ==> t[k] == s[k])
    && (forall k :: lo <= k <= hi ==> t[k] in s[lo..hi + 1])
  }

  lemma RearrangedSame<T>(s: seq<T>, lo: nat, hi: nat)
    requires lo <= hi < |s|
    ensures Rearranged(s, s, lo, hi)
  {
    forall k | lo <= k <= hi ensures s[k] in s[lo..hi + 1] {
      assert s[lo..hi + 1][k - lo] == s[k];
    }
  }

  lemma RearrangedTwice<T>(s: seq<T>, t: seq<T>, u: seq<T>, lo: nat, hi: nat)
    requires Rearranged(s, t, lo, hi) && Rearranged(t, u, lo, hi)
    ensures Rearranged(s, u, lo, hi)
  {
    forall k | lo <= k <= hi ensures u[k] in s[lo..hi + 1] {
      assert u[k] in t[lo..hi + 1];
      var j :| 0 <= j < |t[lo..hi + 1]| && t[lo..hi + 1][j] == u[k];
      assert t[lo + j] == u[k] && t[lo + j] in s[lo..hi + 1];
    }
  }

  lemma SwapRearranges<T>(s: seq<T>, i: nat, j: nat, lo: nat, hi: nat)
    requires lo <= i <= hi && lo <= j <= hi < |s|
    ensures Rearranged(s, s[i := s[j]][j := s[i]], lo, hi)
  {
    var t := s[i := s[j]][j := s[i]];
    SwapMultiset(s, i, j);
    RearrangedSame(s, lo, hi);
    forall k | lo <= k <= hi ensures t[k] in s[lo..hi + 1] {
      assert t[k] == s[if k == j then i else if k == i then j else k];
    }
  }

  lemma SwapMultiset<T>(s: seq<T>, i: nat, j: nat)
    requires i < |s| && j < |s|
    ensures multiset(s[i := s[j]][j := s[i]]) == multiset(s)
  {
    var u := s[i := s[j]];
    assert multiset(u) == multiset(s) - multiset{s[i]} + multiset{s[j]};
  }

  method Swap<T>(a: array<T>, i: nat, j: nat, ghost lo: nat, ghost hi: nat)
    requires lo <= i <= hi && lo <= j <= hi < a.Length
    modifies a
    ensures a[..] == old(a[..])[i := old(a[j])][j := old(a[i])]
    ensures Rearranged(old(a[..]), a[..], lo, hi)
  {
    SwapRearranges(a[..], i, j, lo, hi);
    a[i], a[j] := a[j], a[i];
  }

  // ---------------------------------------------------------------------------
  // Partitioning

  /** Everything up to `f` comes before everything after it. */
  ghost predicate Cut<T>(cmp: (T, T) -> int, s: seq<T>, f: int) {
    forall i, j :: 0 <= i <= f < j < |s| ==> cmp(s[i], s[j]) <= 0
  }

  lemma NotLess<T(!new)>(cmp: (T, T) -> int, x: T, y: T)
    requires TotalPreorder(cmp)
    ensures if cmp(x, y) < 0 then cmp(x, y) <= 0 else cmp(y, x) <= 0
  {
  }

  /** Puts two elements of a part in order. */
  method Order<T(!new)>(a: array<T>, i: nat, j: nat, lo: nat, hi: nat, cmp: (T, T) -> int) returns (swapped: bool)
    requires TotalPreorder(cmp) && lo <= i < j <= hi < a.Length
    modifies a
    ensures Rearranged(old(a[..]), a[..], lo, hi)
    ensures swapped == (cmp(old(a[j]), old(a[i])) < 0)
    ensures swapped ==> a[i] == old(a[j]) && a[j] == old(a[i])
    ensures !swapped ==> a[i] == old(a[i]) && a[j] == old(a[j])
    ensures forall k :: 0 <= k < a.Length && k != i && k != j ==> a[k] == old(a[k])
    ensures cmp(a[i], a[j]) <= 0
  {
    hide *;
    NotLess(cmp, a[j], a[i]);
    swapped := cmp(a[j], a[i]) < 0;
    if swapped {
      Swap(a, j, i, lo, hi);
    } else {
      RearrangedSame(a[..], lo, hi);
    }
  }

  /** Median of three: sorts the ends and the middle of the part. */
  method MedianOfThree<T(!new)>(a: array<T>, lo: nat, hi: nat, cmp: (T, T) -> int) returns (mid: nat)
    requires TotalPreorder(cmp) && lo + MAX_THRESH <= hi < a.Length
    modifies a
    ensures Rearranged(old(a[..]), a[..], lo, hi)
    ensures mid == (lo + hi) / 2 && lo < mid < hi && cmp(a[lo], a[mid]) <= 0 && cmp(a[mid], a[hi]) <= 0
  {
    hide TotalPreorder, Rearranged;
    ghost var s := a[..];
    mid := lo + (hi - lo) / 2;
    var swapped := Order(a, lo, mid, lo, hi, cmp);
    ghost var t := a[..];
    swapped := Order(a, mid, hi, lo, hi, cmp);
    ghost var u := a[..];
    RearrangedTwice(s, t, u, lo, hi);
    if swapped {
      swapped := Order(a, lo, mid, lo, hi, cmp);
      RearrangedTwice(s, u, a[..], lo, hi);
    }
  }

  /** Elements that belong left of the pivot `p`, and right of it. */
  ghost predicate Walls<T>(cmp: (T, T) -> int, s: seq<T>, p: T, lo: nat, l: int, r: int, hi: nat) {
    && lo <= hi < |s|
    && (forall k :: lo <= k < l && k <= hi ==> cmp(s[k], p) <= 0)
    && (forall k :: r < k <= hi && lo <= k ==> cmp(p, s[k]) <= 0)
  }

  /** The scan from the left has no bound check: the wall at the right stops it. */
  method ScanLeft<T(!new)>(a: array<T>, mid: nat, l0: nat, cmp: (T, T) -> int, ghost lo: nat, ghost r: nat,
                    ghost hi: nat) returns (l: nat)
    requires TotalPreorder(cmp) && hi < a.Length && lo <= mid <= hi && lo < l0 <= r < hi
    requires Walls(cmp, a[..], a[mid], lo, l0, r, hi)
    ensures l0 <= l <= r + 1 && Walls(cmp, a[..], a[mid], lo, l, r, hi) && cmp(a[mid], a[l]) <= 0
  {
    hide TotalPreorder;
    l := l0;
    assert forall k :: 0 <= k < a.Length ==> a[..][k] == a[k];
    NotLess(cmp, a[l], a[mid]);
    while cmp(a[l], a[mid]) < 0
      invariant l0 <= l <= r + 1
      invariant Walls(cmp, a[..], a[mid], lo, l, r, hi)
      invariant !(cmp(a[l], a[mid]) < 0) ==> cmp(a[mid], a[l]) <= 0
      decreases hi - l
    {
      if l == r + 1 { LessNot(cmp, a[l], a[mid]); }
      l := l + 1;
      NotLess(cmp, a[l], a[mid]);
    }
  }

  lemma LessNot<T(!new)>(cmp: (T, T) -> int, x: T, y: T)
    requires TotalPreorder(cmp) && cmp(x, y) < 0
    ensures !(cmp(y, x) <= 0)
  {
  }

  method ScanRight<T(!new)>(a: array<T>, mid: nat, r0: nat, cmp: (T, T) -> int, ghost lo: nat, ghost l: nat,
                     ghost hi: nat) returns (r: nat)
    requires TotalPreorder(cmp) && hi < a.Length && lo <= mid <= hi && lo < l <= r0 + 1 && r0 < hi
    requires Walls(cmp, a[..], a[mid], lo, l, r0, hi)
    ensures l - 1 <= r <= r0 && Walls(cmp, a[..], a[mid], lo, l, r, hi) && cmp(a[r], a[mid]) <= 0
  {
    hide TotalPreorder;
    r := r0;
    assert forall k :: 0 <= k < a.Length ==> a[..][k] == a[k];
    NotLess(cmp, a[mid], a[r]);
    while cmp(a[mid], a[r]) < 0
      invariant l - 1 <= r <= r0
      invariant Walls(cmp, a[..], a[mid], lo, l, r, hi)
      invariant !(cmp(a[mid], a[r]) < 0) ==> cmp(a[r], a[mid]) <= 0
      decreases r
    {
      if r == l - 1 { LessNot(cmp, a[mid], a[r]); }
      r := r - 1;
      NotLess(cmp, a[mid], a[r]);
    }
  }

  /** Exchanging two elements that are on the wrong sides, keeping track of the
      pivot. */
  method Exchange<T(!new)>(a: array<T>, mid: nat, l: nat, r: nat, cmp: (T, T) -> int, ghost lo: nat, ghost hi: nat)
    returns (mid': nat)
    requires hi < a.Length && lo <= mid <= hi && lo < l < r < hi
    requires Walls(cmp, a[..], a[mid], lo, l, r, hi) && cmp(a[mid], a[l]) <= 0 && cmp(a[r], a[mid]) <= 0
    modifies a
    ensures Rearranged(old(a[..]), a[..], lo, hi)
    ensures lo <= mid' <= hi && a[mid'] == old(a[mid])
    ensures Walls(cmp, a[..], a[mid'], lo, l + 1, r - 1, hi)
  {
    hide Rearranged;
    ghost var t := a[..];
    Swap(a, l, r, lo, hi);
    mid' := if mid == l then r else if mid == r then l else mid;
    assert forall k :: 0 <= k < a.Length ==> a[..][k] == a[k];
    assert forall k :: 0 <= k < a.Length && k != l && k != r ==> a[k] == t[k];
  }

  /** "Collapse the walls". */
  method Collapse<T(!new)>(a: array<T>, lo: nat, hi: nat, mid0: nat, cmp: (T, T) -> int) returns (l: nat, r: nat)
    requires TotalPreorder(cmp) && lo + MAX_THRESH <= hi < a.Length
    requires lo < mid0 < hi && cmp(a[lo], a[mid0]) <= 0 && cmp(a[mid0], a[hi]) <= 0
    modifies a
    ensures Rearranged(old(a[..]), a[..], lo, hi)
    ensures lo <= r < l <= hi && Walls(cmp, a[..], old(a[mid0]), lo, l, r, hi)
  {
    ghost var s, p := a[..], a[mid0];
    var mid := mid0;
    hide *;
    RearrangedSame(s, lo, hi);
    l, r := lo + 1, hi - 1;
    WallsStart(cmp, s, p, lo, hi);
    var done := false;
    while !done
      invariant Rearranged(s, a[..], lo, hi) && Walls(cmp, a[..], p, lo, l, r, hi)
      invariant lo < l <= hi && lo <= r < hi && (if done then r < l else l <= r)
      invariant lo <= mid <= hi && a[mid] == p
      decreases if done then 0 else 1 + r - l
    {
      ghost var t := a[..];
      mid, l, r, done := Turn(a, mid, l, r, cmp, lo, hi);
      RearrangedTwice(s, t, a[..], lo, hi);
    }
  }

  /** One turn of the do-while loop. */
  method Turn<T(!new)>(a: array<T>, mid0: nat, l0: nat, r0: nat, cmp: (T, T) -> int, ghost lo: nat, ghost hi: nat)
    returns (mid: nat, l: nat, r: nat, done: bool)
    requires TotalPreorder(cmp) && hi < a.Length && lo < l0 <= r0 < hi && lo <= mid0 <= hi
    requires Walls(cmp, a[..], a[mid0], lo, l0, r0, hi)
    modifies a
    ensures Rearranged(old(a[..]), a[..], lo, hi)
    ensures lo <= mid <= hi && a[mid] == old(a[mid0])
    ensures l0 <= l <= hi && lo <= r <= r0 && (if done then r < l else l <= r && r - l < r0 - l0)
    ensures Walls(cmp, a[..], a[mid], lo, l, r, hi)
  {
    hide *;
    RearrangedSame(a[..], lo, hi);
    mid := mid0;
    l := ScanLeft(a, mid, l0, cmp, lo, r0, hi);
    r := ScanRight(a, mid, r0, cmp, lo, l, hi);
    if l < r {
      mid := Exchange(a, mid, l, r, cmp, lo, hi);
      l, r := l + 1, r - 1;
      done := l > r;
    } else if l == r {
      WallsMeet(cmp, a[..], a[mid], lo, l, hi);
      l, r := l + 1, r - 1;
      done := true;
    } else {
      done := true;
    }
  }

  lemma WallsStart<T>(cmp: (T, T) -> int, s: seq<T>, p: T, lo: nat, hi: nat)
    requires lo < hi < |s| && cmp(s[lo], p) <= 0 && cmp(p, s[hi]) <= 0
    ensures Walls(cmp, s, p, lo, lo + 1, hi - 1, hi)
  {
  }

  lemma WallsMeet<T>(cmp: (T, T) -> int, s: seq<T>, p: T, lo: nat, l: nat, hi: nat)
    requires Walls(cmp, s, p, lo, l, l, hi) && l < |s| && cmp(p, s[l]) <= 0 && cmp(s[l], p) <= 0
    ensures Walls(cmp, s, p, lo, l + 1, l - 1, hi)
  {
  }

  /** Splitting a part in two, every element of the first before every element
      that comes later, and every element of the second after all earlier ones. */
  method Partition<T(!new)>(a: array<T>, lo: nat, hi: nat, cmp: (T, T) -> int) returns (l: nat, r: nat)
    requires TotalPreorder(cmp) && lo + MAX_THRESH <= hi < a.Length
    modifies a
    ensures Rearranged(old(a[..]), a[..], lo, hi)
    ensures lo <= r < l <= hi
    ensures Cut(cmp, a[lo..hi + 1], r - lo) && Cut(cmp, a[lo..hi + 1], l - 1 - lo)
  {
    ghost var s := a[..];
    var mid := MedianOfThree(a, lo, hi, cmp);
    ghost var t, p := a[..], a[mid];
    l, r := Collapse(a, lo, hi, mid, cmp);
    RearrangedTwice(s, t, a[..], lo, hi);
    WallsCut(cmp, a[..], p, lo, l, r, hi);
  }

  lemma WallsCut<T(!new)>(cmp: (T, T) -> int, s: seq<T>, p: T, lo: nat, l: nat, r: nat, hi: nat)
    requires TotalPreorder(cmp) && lo <= r < l <= hi < |s| && Walls(cmp, s, p, lo, l, r, hi)
    ensures Cut(cmp, s[lo..hi + 1], r - lo) && Cut(cmp, s[lo..hi + 1], l - 1 - lo)
  {
    var u := s[lo..hi + 1];
    forall i, j | 0 <= i < j < |u| && (i <= r - lo < j || i <= l - 1 - lo < j) ensures cmp(u[i], u[j]) <= 0 {
      Through(cmp, s[lo + i], p, s[lo + j]);
    }
  }

  // ---------------------------------------------------------------------------
  // The parts still to be sorted

  type Part = (nat, nat)

  function Halved(n: nat, k: nat): nat { if k == 0 then n else Halved(n, k - 1) / 2 }

  lemma {:induction false} HalvedBelow(n: nat, k: nat, bits: nat)
    requires n < Pow2(bits) && k <= bits
    ensures Halved(n, k) < Pow2(bits - k)
    decreases k
  {
    if k > 0 { HalvedBelow(n, k - 1, bits); }
  }

  /** Parts are long, lie in the array, do not overlap, and get smaller by half from
      one stack level to the next. */
  ghost predicate PartsOk(n: nat, todo: seq<Part>) {
    && (forall i :: 0 <= i < |todo| ==> todo[i].0 + MAX_THRESH <= todo[i].1 < n)
    && (forall i, j :: 0 <= i < j < |todo| ==> Apart(todo[i], todo[j]))
    && (forall i :: 0 <= i < |todo| ==> PartSize(todo[i]) <= Halved(n, i))
  }

  predicate Apart(p: Part, q: Part) { p.1 < q.0 || q.1 < p.0 }

  function PartSize(p: Part): int { p.1 - p.0 + 1 }

  /** The first elements up to `f` are a part of their own: either short, or still
      to be sorted. */
  ghost predicate FrontPart(todo: seq<Part>, f: nat) {
    && (f <= MAX_THRESH || (0, f) in todo)
    && forall i :: 0 <= i < |todo| ==> todo[i] == (0, f) || f < todo[i].0
  }

  /** What replaces the last part once it is split into (lo, r) and (l, hi). */
  function Split(todo: seq<Part>, l: nat, r: nat): seq<Part>
    requires todo != []
  {
    var front, (lo, hi) := todo[..|todo| - 1], todo[|todo| - 1];
    if r - lo <= MAX_THRESH then
      if hi - l <= MAX_THRESH then front else front + [(l, hi)]
    else if hi - l <= MAX_THRESH then front + [(lo, r)]
    else if r - lo > hi - l then front + [(lo, r), (l, hi)]
    else front + [(l, hi), (lo, r)]
  }

  lemma SplitPartsOk(n: nat, todo: seq<Part>, l: nat, r: nat)
    requires PartsOk(n, todo) && todo != []
    requires todo[|todo| - 1].0 <= r < l <= todo[|todo| - 1].1
    ensures PartsOk(n, Split(todo, l, r))
  {
    var m := |todo| - 1;
    var (lo, hi) := todo[m];
    var front := todo[..m];
    LastPart(n, todo);
    hide PartsOk, Halved;
    if r - lo <= MAX_THRESH {
      if hi - l > MAX_THRESH { PartsPush(n, front, (l, hi)); }
    } else if hi - l <= MAX_THRESH {
      PartsPush(n, front, (lo, r));
    } else if r - lo > hi - l {
      PartsPushTwo(n, front, (lo, r), (l, hi));
    } else {
      PartsPushTwo(n, front, (l, hi), (lo, r));
    }
  }

  lemma LastPart(n: nat, todo: seq<Part>)
    requires PartsOk(n, todo) && todo != []
    ensures var m := |todo| - 1;
            && PartsOk(n, todo[..m])
            && todo[m].0 + MAX_THRESH <= todo[m].1 < n && PartSize(todo[m]) <= Halved(n, m)
            && forall i :: 0 <= i < m ==> Apart(todo[..m][i], todo[m])
  {
  }

  lemma PartsPushTwo(n: nat, front: seq<Part>, big: Part, small: Part)
    requires PartsOk(n, front) && Apart(big, small)
    requires big.0 + MAX_THRESH <= big.1 < n && small.0 + MAX_THRESH <= small.1 < n
    requires PartSize(big) <= Halved(n, |front|) && 2 * PartSize(small) <= Halved(n, |front|)
    requires forall i :: 0 <= i < |front| ==> Apart(front[i], big) && Apart(front[i], small)
    ensures PartsOk(n, front + [big, small])
  {
    PartsPush(n, front, big);
    assert Halved(n, |front| + 1) == Halved(n, |front|) / 2;
    hide PartsOk, Halved;
    PartsPush(n, front + [big], small);
    assert front + [big] + [small] == front + [big, small];
  }

  lemma PartsPush(n: nat, front: seq<Part>, p: Part)
    requires PartsOk(n, front) && p.0 + MAX_THRESH <= p.1 < n && PartSize(p) <= Halved(n, |front|)
    requires forall i :: 0 <= i < |front| ==> Apart(front[i], p)
    ensures PartsOk(n, front + [p])
  {
  }

  lemma SplitFront(todo: seq<Part>, f: nat, l: nat, r: nat, n: nat)
    requires PartsOk(n, todo) && todo != [] && FrontPart(todo, f)
    requires todo[|todo| - 1].0 <= r < l <= todo[|todo| - 1].1
    ensures FrontPart(Split(todo, l, r), if todo[|todo| - 1].0 == 0 then r else f)
  {
    var m, todo' := |todo| - 1, Split(todo, l, r);
    var (lo, hi) := todo[m];
    if lo == 0 {
      assert hi == f;
      forall i | 0 <= i < |todo'| ensures todo'[i] == (0, r) || r < todo'[i].0 {
        if i < m { assert Apart(todo[i], todo[m]); }
      }
      if r > MAX_THRESH {
        assert todo'[m] == (0, r) || todo'[m + 1] == (0, r);
      }
    } else {
      if (0, f) in todo {
        var i :| 0 <= i < |todo| && todo[i] == (0, f);
        assert todo'[i] == (0, f);
      }
    }
  }

  /** Work left: how far the parts reach. */
  function Work(todo: seq<Part>): int {
    if todo == [] then 0 else Work(todo[..|todo| - 1]) + todo[|todo| - 1].1 - todo[|todo| - 1].0
  }

  lemma WorkPush(todo: seq<Part>, p: Part)
    ensures Work(todo + [p]) == Work(todo) + p.1 - p.0
  {
    assert (todo + [p])[..|todo|] == todo;
  }

  lemma SplitWork(todo: seq<Part>, l: nat, r: nat)
    requires todo != [] && todo[|todo| - 1].0 <= r < l <= todo[|todo| - 1].1
    ensures Work(Split(todo, l, r)) < Work(todo)
  {
    var front := todo[..|todo| - 1];
    var (lo, hi) := todo[|todo| - 1];
    assert Work(todo) == Work(front) + hi - lo;
    hide Work;
    if r - lo <= MAX_THRESH {
      WorkPush(front, (l, hi));
    } else if hi - l <= MAX_THRESH {
      WorkPush(front, (lo, r));
    } else if r - lo > hi - l {
      WorkPushTwo(front, (lo, r), (l, hi));
    } else {
      WorkPushTwo(front, (l, hi), (lo, r));
    }
  }

  lemma WorkPushTwo(todo: seq<Part>, p: Part, q: Part)
    ensures Work(todo + [p, q]) == Work(todo) + p.1 - p.0 + q.1 - q.0
  {
    WorkPush(todo, p);
    WorkPush(todo + [p], q);
    assert todo + [p] + [q] == todo + [p, q];
  }

  lemma {:induction false} WorkPositive(todo: seq<Part>)
    requires forall i :: 0 <= i < |todo| ==> todo[i].0 <= todo[i].1
    ensures Work(todo) >= 0
  {
    if todo != [] { WorkPositive(todo[..|todo| - 1]); }
  }

  /** Sorting inside a part keeps the front cut off. */
  lemma CutKept<T(!new)>(cmp: (T, T) -> int, s: seq<T>, t: seq<T>, lo: nat, hi: nat, f: nat)
    requires Cut(cmp, s, f) && Rearranged(s, t, lo, hi) && (hi <= f || f < lo)
    ensures Cut(cmp, t, f)
  {
    forall i, j | 0 <= i <= f < j < |t| ensures cmp(t[i], t[j]) <= 0 {
      var i' := WhereFrom(s, t, lo, hi, i);
      var j' := WhereFrom(s, t, lo, hi, j);
      assert cmp(s[i'], s[j']) <= 0;
    }
  }

  /** Where an element was before. */
  lemma WhereFrom<T>(s: seq<T>, t: seq<T>, lo: nat, hi: nat, k: nat) returns (j: nat)
    requires Rearranged(s, t, lo, hi) && k < |t|
    ensures j < |s| && s[j] == t[k]
    ensures if lo <= k <= hi then lo <= j <= hi else j == k
  {
    if lo <= k <= hi {
      assert t[k] in s[lo..hi + 1];
      var d :| 0 <= d < |s[lo..hi + 1]| && s[lo..hi + 1][d] == t[k];
      j := lo + d;
    } else {
      j := k;
    }
  }

  /** The front part itself is split: its first half is the new front. */
  lemma CutMoves<T(!new)>(cmp: (T, T) -> int, s: seq<T>, t: seq<T>, hi: nat, r: nat)
    requires Cut(cmp, s, hi) && Rearranged(s, t, 0, hi) && r < hi && Cut(cmp, t[0..hi + 1], r)
    ensures Cut(cmp, t, r)
  {
    CutKept(cmp, s, t, 0, hi, hi);
    forall i, j | 0 <= i <= r < j < |t| ensures cmp(t[i], t[j]) <= 0 {
      if j <= hi {
        assert t[0..hi + 1][i] == t[i] && t[0..hi + 1][j] == t[j];
      }
    }
  }

  // ---------------------------------------------------------------------------
  // The loop over the parts

  /** The parts on the stack, above the mark at its bottom, and the current one. */
  function Pending(stack: seq<Part>, top: nat, lo: nat, hi: nat): seq<Part>
    requires top <= |stack|
  {
    if top == 0 then [] else stack[1..top] + [(lo, hi)]
  }

  /** The state of the array and of the work to do. */
  ghost predicate InProgress<T>(cmp: (T, T) -> int, s: seq<T>, t: seq<T>, todo: seq<Part>, f: nat) {
    && |s| == |t| && multiset(s) == multiset(t) && f < |t|
    && Cut(cmp, t, f) && PartsOk(|t|, todo) && FrontPart(todo, f)
  }

  lemma {:induction false} SplitProgress<T(!new)>(cmp: (T, T) -> int, s: seq<T>, t: seq<T>, u: seq<T>, todo: seq<Part>,
                                           f: nat, l: nat, r: nat)
    returns (f': nat)
    requires InProgress(cmp, s, t, todo, f) && todo != []
    requires var (lo, hi) := todo[|todo| - 1];
             lo <= r < l <= hi < |u| && Rearranged(t, u, lo, hi) && Cut(cmp, u[lo..hi + 1], r - lo)
    ensures InProgress(cmp, s, u, Split(todo, l, r), f')
  {
    var (lo, hi) := todo[|todo| - 1];
    LastPart(|t|, todo);
    SplitPartsOk(|t|, todo, l, r);
    SplitFront(todo, f, l, r, |t|);
    assert (lo, hi) == (0, f) || f < lo;
    hide PartsOk, FrontPart;
    if lo == 0 {
      f' := r;
      CutMoves(cmp, t, u, hi, r);
    } else {
      f' := f;
      CutKept(cmp, t, u, lo, hi, f);
    }
  }

  /** Five elements or fewer in front are known to hold the smallest one. */
  ghost predicate SmallestInFront<T>(cmp: (T, T) -> int, s: seq<T>) {
    exists f: nat :: f <= MAX_THRESH && f < |s| && Cut(cmp, s, f)
  }

  /** The stack never needs more levels than `size_t` has bits. */
  lemma StackFits(n: nat, todo: seq<Part>, bits: nat)
    requires n < Pow2(bits) && PartsOk(n, todo)
    ensures |todo| < bits || todo == []
  {
    if |todo| > 0 {
      var m := |todo| - 1;
      assert PartSize(todo[m]) <= Halved(n, m) && PartSize(todo[m]) > MAX_THRESH;
      HalvedSmall(n, bits, m);
    }
  }

  lemma {:induction false} HalvedSmall(n: nat, bits: nat, m: nat)
    requires n < Pow2(bits) && Halved(n, m) > 2
    ensures m + 1 < bits
    decreases m
  {
    if m + 1 >= bits {
      if m <= bits {
        HalvedBelow(n, m, bits);
      } else {
        HalvedSmall(n, bits, m - 1);
      }
    }
  }

  method QuickPhase<T(!new)>(a: array<T>, cmp: (T, T) -> int, bits: nat)
    requires TotalPreorder(cmp) && MAX_THRESH < a.Length < Pow2(bits)
    modifies a
    ensures multiset(a[..]) == multiset(old(a[..])) && SmallestInFront(cmp, a[..])
  {
    ghost var s := a[..];
    ghost var f: nat := a.Length - 1;
    ghost var todo: seq<Part> := [(0, f)];
    ProgressStart(cmp, s);
    ProgressFacts(cmp, s, s, todo, f, bits);
    hide TotalPreorder, InProgress, SmallestInFront, Cut, Rearranged, Pow2, Work, Split, Pending;
    var stack := new Part[bits](_ => (0, 0));
    var lo: nat, hi: nat, top: nat := 0, a.Length - 1, 1;
    PendingShape(stack[..], top, lo, hi);
    while top > 0
      invariant top <= bits && todo == Pending(stack[..], top, lo, hi)
      invariant InProgress(cmp, s, a[..], todo, f)
      decreases Work(todo)
    {
      PendingShape(stack[..], top, lo, hi);
      ghost var todo', f';
      top, lo, hi, todo', f' := SplitCurrent(a, stack, top, lo, hi, cmp, s, todo, f);
      todo, f := todo', f';
    }
    PendingShape(stack[..], top, lo, hi);
    ProgressEnd(cmp, s, a[..], f);
  }

  /** One turn of the loop: split the current part and choose the next one. */
  method SplitCurrent<T(!new)>(a: array<T>, stack: array<Part>, top0: nat, lo0: nat, hi0: nat, cmp: (T, T) -> int,
                               ghost s: seq<T>, ghost todo0: seq<Part>, ghost f0: nat)
    returns (top: nat, lo: nat, hi: nat, ghost todo: seq<Part>, ghost f: nat)
    requires TotalPreorder(cmp) && |s| < Pow2(stack.Length) && (a as object) != stack
    requires 0 < top0 <= stack.Length && todo0 == Pending(stack[..], top0, lo0, hi0)
    requires InProgress(cmp, s, a[..], todo0, f0)
    modifies a, stack
    ensures top <= stack.Length && todo == Pending(stack[..], top, lo, hi) && InProgress(cmp, s, a[..], todo, f)
    ensures 0 <= Work(todo) < Work(todo0)
  {
    hide TotalPreorder, InProgress, Cut, Rearranged, Pow2, Work, Split, Pending;
    PendingShape(stack[..], top0, lo0, hi0);
    ghost var t := a[..];
    ProgressFacts(cmp, s, t, todo0, f0, stack.Length);
    var l, r := Partition(a, lo0, hi0, cmp);
    f := SplitProgress(cmp, s, t, a[..], todo0, f0, l, r);
    SplitWork(todo0, l, r);
    todo := Split(todo0, l, r);
    ghost var u := a[..];
    ProgressFacts(cmp, s, u, todo, f, stack.Length);
    top, lo, hi := NextPart(stack, top0, lo0, hi0, l, r);
    assert a[..] == u;
  }

  lemma PendingShape(stack: seq<Part>, top: nat, lo: nat, hi: nat)
    requires top <= |stack|
    ensures var todo := Pending(stack, top, lo, hi);
            |todo| == top && (top > 0 ==> todo[top - 1] == (lo, hi)) && (top == 1 ==> todo == [(lo, hi)])
  {
  }

  lemma ProgressStart<T>(cmp: (T, T) -> int, s: seq<T>)
    requires |s| > MAX_THRESH
    ensures InProgress(cmp, s, s, [(0, |s| - 1)], |s| - 1)
  {
  }

  lemma ProgressFacts<T>(cmp: (T, T) -> int, s: seq<T>, t: seq<T>, todo: seq<Part>, f: nat, bits: nat)
    requires InProgress(cmp, s, t, todo, f) && |s| < Pow2(bits)
    ensures |t| == |s| && Work(todo) >= 0 && (|todo| < bits || todo == [])
    ensures todo != [] ==> todo[|todo| - 1].0 + MAX_THRESH <= todo[|todo| - 1].1 < |t|
  {
    WorkPositive(todo);
    StackFits(|t|, todo, bits);
  }

  lemma ProgressEnd<T>(cmp: (T, T) -> int, s: seq<T>, t: seq<T>, f: nat)
    requires InProgress(cmp, s, t, [], f)
    ensures multiset(t) == multiset(s) && SmallestInFront(cmp, t)
  {
  }

  /** Which part comes next, and which one waits on the stack. */
  method NextPart(stack: array<Part>, top0: nat, lo0: nat, hi0: nat, l: nat, r: nat)
    returns (top: nat, lo: nat, hi: nat)
    requires 0 < top0 <= stack.Length && lo0 <= r < l <= hi0
    requires |Split(Pending(stack[..], top0, lo0, hi0), l, r)| < stack.Length
          || Split(Pending(stack[..], top0, lo0, hi0), l, r) == []
    modifies stack
    ensures top <= stack.Length
    ensures Pending(stack[..], top, lo, hi) == Split(old(Pending(stack[..], top0, lo0, hi0)), l, r)
  {
    top, lo, hi := top0, lo0, hi0;
    ghost var was := stack[..];
    if r - lo <= MAX_THRESH {
      if hi - l <= MAX_THRESH {
        top := top - 1;
        lo, hi := stack[top].0, stack[top].1;
      } else {
        lo := l;
      }
    } else if hi - l <= MAX_THRESH {
      hi := r;
    } else if r - lo > hi - l {
      stack[top], top := (lo, r), top + 1;
      lo := l;
    } else {
      stack[top], top := (l, hi), top + 1;
      hi := r;
    }
    assert stack[..][1..top0] == was[1..top0];
    assert top > top0 ==> stack[1..top] == stack[1..top0] + [stack[top0]];
    assert top > 0 && top < top0 ==> stack[1..top0] == stack[1..top] + [stack[top]];
  }

  // ---------------------------------------------------------------------------
  // Insertion sort

  lemma SmallerSoFar<T(!new)>(cmp: (T, T) -> int, s: seq<T>, tmp: nat, run: nat)
    requires TotalPreorder(cmp) && tmp < run < |s| && forall k :: 0 <= k < run ==> cmp(s[tmp], s[k]) <= 0
    ensures var best := if cmp(s[run], s[tmp]) < 0 then run else tmp;
            forall k :: 0 <= k < run + 1 ==> cmp(s[best], s[k]) <= 0
  {
    hide TotalPreorder;
    NotLess(cmp, s[run], s[tmp]);
    forall k | 0 <= k < run + 1 ensures cmp(s[run], s[tmp]) < 0 ==> cmp(s[run], s[k]) <= 0 {
      Through(cmp, s[run], s[tmp], s[k]);
    }
  }

  /** The first threshold's worth of elements is enough to look at. */
  method FindSmallest<T(!new)>(a: array<T>, cmp: (T, T) -> int) returns (tmp: nat)
    requires TotalPreorder(cmp) && a.Length > 0 && SmallestInFront(cmp, a[..])
    ensures tmp < a.Length && forall k :: 0 <= k < a.Length ==> cmp(a[tmp], a[k]) <= 0
  {
    ghost var s := a[..];
    var thresh := if a.Length - 1 < MAX_THRESH then a.Length - 1 else MAX_THRESH;
    tmp := 0;
    Through(cmp, s[0], s[0], s[0]);
    hide TotalPreorder;
    for run := 1 to thresh + 1
      invariant tmp < run && tmp <= thresh && forall k :: 0 <= k < run ==> cmp(s[tmp], s[k]) <= 0
    {
      SmallerSoFar(cmp, s, tmp, run);
      if cmp(a[run], a[tmp]) < 0 {
        tmp := run;
      }
    }
    SmallestOfAll(cmp, s, tmp, thresh);
  }

  lemma SmallestOfAll<T(!new)>(cmp: (T, T) -> int, s: seq<T>, tmp: nat, thresh: nat)
    requires TotalPreorder(cmp) && SmallestInFront(cmp, s) && tmp <= thresh < |s|
    requires (thresh == |s| - 1 || thresh == MAX_THRESH)
    requires forall k :: 0 <= k <= thresh ==> cmp(s[tmp], s[k]) <= 0
    ensures forall k :: 0 <= k < |s| ==> cmp(s[tmp], s[k]) <= 0
  {
    hide TotalPreorder;
    var f: nat :| f <= MAX_THRESH && f < |s| && Cut(cmp, s, f);
    forall k | 0 <= k < |s| ensures cmp(s[tmp], s[k]) <= 0 {
      if k > thresh { Through(cmp, s[tmp], s[f], s[k]); }
    }
  }

  /** The smallest element goes to the front, where it will stop every scan. */
  method PutSmallestFirst<T(!new)>(a: array<T>, cmp: (T, T) -> int)
    requires TotalPreorder(cmp) && a.Length > 0 && SmallestInFront(cmp, a[..])
    modifies a
    ensures multiset(a[..]) == multiset(old(a[..])) && SmallestFirst(cmp, a[..])
  {
    hide TotalPreorder, SmallestInFront;
    var tmp := FindSmallest(a, cmp);
    if tmp != 0 {
      ghost var s := a[..];
      Swap(a, tmp, 0, 0, a.Length - 1);
      assert forall k :: 0 <= k < a.Length ==> a[..][k] == s[if k == 0 then tmp else if k == tmp then 0 else k];
    }
  }

  ghost predicate SmallestFirst<T>(cmp: (T, T) -> int, s: seq<T>) {
    s != [] && forall k :: 0 <= k < |s| ==> cmp(s[0], s[k]) <= 0
  }

  /** The elements from `i` to `j` moved up by one, the last one to the front. */
  function Rotated<T>(s: seq<T>, i: nat, j: nat): seq<T>
    requires i <= j < |s|
  {
    s[..i] + [s[j]] + s[i..j] + s[j + 1..]
  }

  lemma RotatedSame<T>(s: seq<T>, i: nat, j: nat)
    requires i <= j < |s|
    ensures multiset(Rotated(s, i, j)) == multiset(s)
  {
    assert s == s[..i] + s[i..j] + [s[j]] + s[j + 1..];
  }

  method Rotate<T>(a: array<T>, i: nat, j: nat)
    requires i <= j < a.Length
    modifies a
    ensures a[..] == Rotated(old(a[..]), i, j)
  {
    ghost var s := a[..];
    var c, hi := a[j], j;
    while hi - 1 >= i
      invariant i <= hi <= j
      invariant forall k :: 0 <= k <= hi || j < k < a.Length ==> a[k] == s[k]
      invariant forall k :: hi < k <= j ==> a[k] == s[k - 1]
    {
      a[hi] := a[hi - 1];
      hi := hi - 1;
    }
    a[hi] := c;
  }

  /** Scanning down for the place of element `run`: the first element stops it. */
  method FindPlace<T(!new)>(a: array<T>, run: nat, cmp: (T, T) -> int) returns (place: nat)
    requires TotalPreorder(cmp) && 0 < run < a.Length && SmallestFirst(cmp, a[..])
    ensures 1 <= place <= run && cmp(a[place - 1], a[run]) <= 0
    ensures forall k :: place <= k < run ==> cmp(a[run], a[k]) <= 0
  {
    assert a[..][0] == a[0] && a[..][run] == a[run];
    hide TotalPreorder;
    var tmp := run - 1;
    NotLess(cmp, a[run], a[tmp]);
    while cmp(a[run], a[tmp]) < 0
      invariant 0 <= tmp < run
      invariant forall k :: tmp < k < run ==> cmp(a[run], a[k]) <= 0
      invariant !(cmp(a[run], a[tmp]) < 0) ==> cmp(a[tmp], a[run]) <= 0
      decreases tmp
    {
      LessNot(cmp, a[run], a[tmp]);
      tmp := tmp - 1;
      NotLess(cmp, a[run], a[tmp]);
    }
    place := tmp + 1;
  }

  lemma RotatedSorted<T(!new)>(cmp: (T, T) -> int, s: seq<T>, place: nat, run: nat)
    requires TotalPreorder(cmp) && 1 <= place <= run < |s| && Sorted(cmp, s[..run]) && cmp(s[place - 1], s[run]) <= 0
    requires forall k :: place <= k < run ==> cmp(s[run], s[k]) <= 0
    ensures Sorted(cmp, Rotated(s, place, run)[..run + 1])
  {
    var t := Rotated(s, place, run);
    hide TotalPreorder;
    var u := t[..run + 1];
    forall i, j | 0 <= i < j < |u| ensures cmp(u[i], u[j]) <= 0 {
      RotatedOrdered(cmp, s, place, run, i, j);
    }
  }

  lemma RotatedOrdered<T(!new)>(cmp: (T, T) -> int, s: seq<T>, place: nat, run: nat, i: nat, j: nat)
    requires TotalPreorder(cmp) && 1 <= place <= run < |s| && Sorted(cmp, s[..run]) && cmp(s[place - 1], s[run]) <= 0
    requires forall k :: place <= k < run ==> cmp(s[run], s[k]) <= 0
    requires i < j <= run
    ensures cmp(Rotated(s, place, run)[i], Rotated(s, place, run)[j]) <= 0
  {
    hide TotalPreorder, Sorted;
    var i' := if i < place then i else if i == place then run else i - 1;
    var j' := if j < place then j else if j == place then run else j - 1;
    assert Rotated(s, place, run)[i] == s[i'] && Rotated(s, place, run)[j] == s[j'];
    if i < place && j == place {
      SortedAt(cmp, s[..run], i, place - 1);
      Through(cmp, s[i], s[place - 1], s[run]);
    } else if i != place {
      SortedAt(cmp, s[..run], i', j');
    }
  }

  lemma SortedAt<T(!new)>(cmp: (T, T) -> int, s: seq<T>, i: nat, j: nat)
    requires TotalPreorder(cmp) && Sorted(cmp, s) && i <= j < |s|
    ensures cmp(s[i], s[j]) <= 0
  {
    if i == j { Through(cmp, s[i], s[i], s[i]); }
  }

  lemma StillSmallest<T(!new)>(cmp: (T, T) -> int, s: seq<T>, t: seq<T>)
    requires SmallestFirst(cmp, s) && multiset(s) == multiset(t) && t != [] && t[0] == s[0]
    ensures SmallestFirst(cmp, t)
  {
    forall k | 0 <= k < |t| ensures cmp(t[0], t[k]) <= 0 {
      assert t[k] in multiset(s);
    }
  }

  /** Taking one more element into the sorted front. */
  method InsertOne<T(!new)>(a: array<T>, run: nat, cmp: (T, T) -> int)
    requires TotalPreorder(cmp) && 0 < run < a.Length && SmallestFirst(cmp, a[..]) && Sorted(cmp, a[..run])
    modifies a
    ensures multiset(a[..]) == multiset(old(a[..])) && SmallestFirst(cmp, a[..]) && Sorted(cmp, a[..run + 1])
  {
    hide TotalPreorder, SmallestFirst, Sorted;
    ghost var t := a[..];
    assert a[..run] == t[..run];
    var place := FindPlace(a, run, cmp);
    RotatedSorted(cmp, t, place, run);
    RotatedSame(t, place, run);
    if place != run {
      Rotate(a, place, run);
    } else {
      assert Rotated(t, run, run) == t;
    }
    assert a[..run + 1] == a[..][..run + 1];
    StillSmallest(cmp, t, a[..]);
  }

  lemma FirstTwo<T>(cmp: (T, T) -> int, s: seq<T>)
    requires SmallestFirst(cmp, s)
    ensures Sorted(cmp, if |s| == 1 then s else s[..2])
  {
  }

  method InsertionPhase<T(!new)>(a: array<T>, cmp: (T, T) -> int)
    requires TotalPreorder(cmp) && a.Length > 0 && SmallestInFront(cmp, a[..])
    modifies a
    ensures multiset(a[..]) == multiset(old(a[..])) && Sorted(cmp, a[..])
  {
    hide TotalPreorder, SmallestFirst, SmallestInFront, Sorted;
    ghost var s := a[..];
    PutSmallestFirst(a, cmp);
    FirstTwo(cmp, a[..]);
    var run := 1 + 1;
    assert a.Length >= 2 ==> a[..][..2] == a[..2];
    while run <= a.Length - 1
      invariant 2 <= run && if a.Length == 1 then Sorted(cmp, a[..]) else run <= a.Length && Sorted(cmp, a[..run])
      invariant multiset(a[..]) == multiset(s) && SmallestFirst(cmp, a[..])
    {
      InsertOne(a, run, cmp);
      run := run + 1;
    }
    assert a.Length >= 2 ==> a[..run] == a[..];
  }

  /** The array ends up sorted, with the same elements, whatever their number, as
      long as it fits `size_t`. */
  method Quicksort<T(!new)>(a: array<T>, cmp: (T, T) -> int, bits: nat)
    requires TotalPreorder(cmp) && a.Length < Pow2(bits)
    modifies a
    ensures multiset(a[..]) == multiset(old(a[..])) && Sorted(cmp, a[..])
  {
    if a.Length == 0 {
      return;
    }
    if a.Length > MAX_THRESH {
      QuickPhase(a, cmp, bits);
    } else {
      assert Cut(cmp, a[..], a.Length - 1);
    }
    InsertionPhase(a, cmp);
  }
}
